/**
 * The run recorder and observer list of the kiln monitor (class OvenMonitor).
 *
 * The poll thread, the oven and the websockets are not modelled as such: one
 * iteration of the poll loop is the method Tick, the oven's reading is its
 * argument, and the outcome of sending to a socket is given by the set of
 * sockets whose send raises.
 */
module OvenMonitorModel {
  import opened Wrappers
  import opened Text
  import opened Arithmetic

  /** Oven.STATE_RUNNING; lib/oven.py is not part of this model. */
  const STATE_RUNNING: string := "RUNNING"

  /** The number of points a backlog is thinned to (the default of lastlog_subset). */
  const BACKLOG_POINTS: int := 50

  /** One reading of oven.get_state(); `state` is None when the key is missing. */
  datatype Sample = Sample(state: Option<string>, runtime: real, temperature: real)

  predicate IsRunning(s: Sample) { s.state == Some(STATE_RUNNING) }

  datatype SetPoint = SetPoint(time: real, temperature: real)

  /** A firing schedule; only its name and its points are read here. */
  datatype Profile = Profile(name: string, data: seq<SetPoint>)

  /** A registered observer: a websocket, or a falsy entry (None). */
  datatype Observer = Null | Socket(id: nat)

  /** The "profile" entry of a backlog message: {"name", "data", "type": "profile"}. */
  datatype ProfileInfo = ProfileInfo(name: string, data: seq<SetPoint>)

  /** The backlog message {"type": "backlog", "profile": ..., "log": ...}. */
  datatype Backlog = Backlog(profile: Option<ProfileInfo>, log: seq<Sample>)

  /** datetime.datetime, down to the second. */
  datatype DateTime = DateTime(year: int, month: int, day: int, hour: int, minute: int, second: int)

  predicate ValidDateTime(t: DateTime)
  {
    1 <= t.year <= 9999 && 1 <= t.month <= 12 && 1 <= t.day <= 31 &&
    0 <= t.hour < 24 && 0 <= t.minute < 60 && 0 <= t.second < 60
  }

  predicate SameMinute(t: DateTime, u: DateTime)
  {
    t.year == u.year && t.month == u.month && t.day == u.day && t.hour == u.hour && t.minute == u.minute
  }

  /** save_record_to_file before any record(): the monitor has no start time. */
  datatype MonitorError = NotStarted

  // ---------------------------------------------------------------------------
  // lastlog_subset: stride subsampling

  /** s[::k] */
  function Stride<T>(s: seq<T>, k: nat): seq<T>
    requires k >= 1
    decreases |s|
  {
    if |s| == 0 then []
    else if |s| <= k then [s[0]]
    else [s[0]] + Stride(s[k..], k)
  }

  lemma {:induction false} StrideLength<T>(s: seq<T>, k: nat)
    requires k >= 1
    ensures |Stride(s, k)| == (|s| + k - 1) / k
    decreases |s|
  {
    if |s| == 0 {
      DivUnique(k - 1, k, 0, k - 1);
    } else if |s| <= k {
      DivUnique(|s| + k - 1, k, 1, |s| - 1);
    } else {
      StrideLength(s[k..], k);
      DivPlusOne(|s| - 1, k);
    }
  }

  lemma {:induction false} StrideElement<T>(s: seq<T>, k: nat, j: nat)
    requires k >= 1 && j < |Stride(s, k)|
    ensures j * k < |s| && Stride(s, k)[j] == s[j * k]
    decreases j
  {
    if j > 0 {
      var rest := s[k..];
      StrideElement(rest, k, j - 1);
      assert (j - 1) * k + k == j * k;
    }
  }

  /** s[::k] holds s[0], s[k], s[2k], ..., ceil(|s| / k) elements. */
  lemma StrideAt<T>(s: seq<T>, k: nat)
    requires k >= 1
    ensures |Stride(s, k)| == (|s| + k - 1) / k
    ensures forall j :: 0 <= j < |Stride(s, k)| ==> j * k < |s| && Stride(s, k)[j] == s[j * k]
  {
    StrideLength(s, k);
    forall j | 0 <= j < |Stride(s, k)|
      ensures j * k < |s| && Stride(s, k)[j] == s[j * k]
    {
      StrideElement(s, k, j);
    }
  }

  /** lastlog_subset(maxpts): the whole log when it is short, else every (N / (maxpts - 1))-th sample. */
  function LastlogSubset<T>(log: seq<T>, maxpts: int): seq<T>
    requires maxpts >= 2
  {
    if |log| <= maxpts then log else Stride(log, |log| / (maxpts - 1))
  }

  lemma StrideAtLeastOne(n: int, m: int)
    requires m >= 2 && n > m
    ensures n / (m - 1) >= 1
  {
    var q := n / (m - 1);
    DivBounds(n, m - 1);
    assert (m - 1) * q + (m - 1) == (q + 1) * (m - 1);
    MulStrict(1, q + 1, m - 1);
  }

  lemma CountLowerBound(n: int, m: int, k: int, c: int)
    requires k >= 1 && m >= 2 && k * (m - 1) <= n <= k * c
    ensures m - 1 <= c
  {
    assert (m - 2) * k == k * (m - 1) - k;
    assert c * k == k * c;
    MulStrict(m - 2, c, k);
  }

  lemma CountUpperBound(n: int, m: int, k: int, c: int)
    requires k >= 1 && m >= 2 && n < k * (m - 1) + (m - 1) && k * c <= n + k - 1
    ensures c < 2 * (m - 1)
  {
    assert k * (m - 1) + (m - 1) + k - 1 == k * m + (m - 2);
    assert (k - 1) * (m - 2) >= 0;
    assert (k - 1) * (m - 2) == k * (m - 2) - (m - 2);
    assert (2 * m - 2) * k == k * m + k * (m - 2);
    assert c * k == k * c;
    MulStrict(c, 2 * m - 2, k);
  }

  /** For N > maxpts the stride k = N / (maxpts - 1) yields between maxpts - 1 and 2(maxpts - 1) - 1 samples. */
  lemma StrideCountBounds(n: int, m: int, k: int, c: int)
    requires m >= 2 && n > m && k == n / (m - 1) && c == (n + k - 1) / k
    ensures k >= 1 && m - 1 <= c < 2 * (m - 1)
  {
    StrideAtLeastOne(n, m);
    DivBounds(n, m - 1);
    DivBounds(n + k - 1, k);
    assert (m - 1) * k == k * (m - 1);
    CountLowerBound(n, m, k, c);
    CountUpperBound(n, m, k, c);
  }

  /** The shape of a backlog log: order kept, first sample kept, between maxpts - 1 and 2(maxpts - 1) - 1 samples. */
  lemma LastlogSubsetShape<T>(log: seq<T>, maxpts: int)
    requires maxpts >= 2
    ensures |log| <= maxpts ==> LastlogSubset(log, maxpts) == log
    ensures |log| > maxpts ==>
      var k := |log| / (maxpts - 1);
      k >= 1 && |LastlogSubset(log, maxpts)| == (|log| + k - 1) / k &&
      forall j :: 0 <= j < |LastlogSubset(log, maxpts)| ==>
        j * k < |log| && LastlogSubset(log, maxpts)[j] == log[j * k]
    ensures |log| > 0 ==> |LastlogSubset(log, maxpts)| > 0 && LastlogSubset(log, maxpts)[0] == log[0]
    ensures |log| > maxpts ==> maxpts - 1 <= |LastlogSubset(log, maxpts)| < 2 * (maxpts - 1)
  {
    if |log| > maxpts {
      var k := |log| / (maxpts - 1);
      StrideCountBounds(|log|, maxpts, k, (|log| + k - 1) / k);
      StrideAt(log, k);
    }
  }

  /** The backlog is not capped at maxpts: with 51 samples and maxpts 50 all 51 are sent. */
  lemma LastlogSubsetExceedsMaxpts<T>(log: seq<T>)
    requires |log| == 51
    ensures |LastlogSubset(log, BACKLOG_POINTS)| == 51
  {
    assert 51 / 49 == 1;
    StrideAt(log, 1);
  }

  /** The backlog message built by add_observer. */
  function MakeBacklog(lastProfile: Option<Profile>, lastLog: seq<Sample>): Backlog
  {
    Backlog(
      match lastProfile
      case None => None
      case Some(p) => Some(ProfileInfo(p.name, p.data)),
      LastlogSubset(lastLog, BACKLOG_POINTS))
  }

  lemma MakeBacklogShape(lastProfile: Option<Profile>, lastLog: seq<Sample>)
    ensures MakeBacklog(lastProfile, lastLog).profile.None? <==> lastProfile.None?
    ensures lastProfile.Some? ==>
      MakeBacklog(lastProfile, lastLog).profile == Some(ProfileInfo(lastProfile.value.name, lastProfile.value.data))
    ensures |lastLog| <= BACKLOG_POINTS ==> MakeBacklog(lastProfile, lastLog).log == lastLog
    ensures |lastLog| > 0 ==> MakeBacklog(lastProfile, lastLog).log[0] == lastLog[0]
  {
    LastlogSubsetShape(lastLog, BACKLOG_POINTS);
  }

  // ---------------------------------------------------------------------------
  // notify_all: removal from the list that is being iterated

  /** An entry notify_all removes: a falsy one, or one whose send raises. */
  predicate Drops(w: Observer, failing: set<Observer>) { w.Null? || w in failing }

  function IndexOf<T(==)>(s: seq<T>, x: T): (i: nat)
    requires x in s
    ensures i < |s| && s[i] == x
    ensures forall j :: 0 <= j < i ==> s[j] != x
  {
    if s[0] == x then 0 else assert x in s[1..]; 1 + IndexOf(s[1..], x)
  }

  /** list.remove(x): drops the first element equal to x. */
  function RemoveFirst<T(==)>(s: seq<T>, x: T): (r: seq<T>)
    requires x in s
  {
    s[..IndexOf(s, x)] + s[IndexOf(s, x) + 1..]
  }

  /** What one notify_all pass leaves registered, and the entries its `for` loop reads. */
  datatype Broadcast = Broadcast(remaining: seq<Observer>, visited: seq<Observer>)

  /**
   * The `for wsock in self.observers` loop resumed at list index i: Python's
   * list iterator reads index i, a removal shifts the later entries down one
   * place, and the iterator then moves on to index i + 1 regardless.
   */
  function NotifyPass(obs: seq<Observer>, i: nat, failing: set<Observer>): Broadcast
    decreases |obs| - i
  {
    if i >= |obs| then Broadcast(obs, [])
    else
      var b := NotifyPass(AfterRead(obs, i, failing), i + 1, failing);
      Broadcast(b.remaining, [obs[i]] + b.visited)
  }

  /** The list once the entry at index i has been handled: without it when it drops. */
  function AfterRead(obs: seq<Observer>, i: nat, failing: set<Observer>): seq<Observer>
    requires i < |obs|
  {
    if Drops(obs[i], failing) then RemoveFirst(obs, obs[i]) else obs
  }

  lemma NotifyPassStep(obs: seq<Observer>, i: nat, failing: set<Observer>)
    requires i < |obs|
    ensures NotifyPass(obs, i, failing) ==
      Broadcast(NotifyPass(AfterRead(obs, i, failing), i + 1, failing).remaining,
                [obs[i]] + NotifyPass(AfterRead(obs, i, failing), i + 1, failing).visited)
  {
  }

  /** The entries that survive a broadcast, in order: the observers that were sent the message. */
  function Healthy(v: seq<Observer>, failing: set<Observer>): seq<Observer>
  {
    if |v| == 0 then [] else (if Drops(v[0], failing) then [] else [v[0]]) + Healthy(v[1..], failing)
  }

  lemma {:induction false} HealthyMembers(v: seq<Observer>, failing: set<Observer>)
    ensures forall w :: w in Healthy(v, failing) <==> w in v && !Drops(w, failing)
  {
    if |v| > 0 {
      HealthyMembers(v[1..], failing);
      assert v == [v[0]] + v[1..];
    }
  }

  /** The entries a broadcast removes. */
  function Dropped(v: seq<Observer>, failing: set<Observer>): (r: seq<Observer>)
    ensures |r| <= |v|
  {
    if |v| == 0 then [] else (if Drops(v[0], failing) then [v[0]] else []) + Dropped(v[1..], failing)
  }

  lemma {:induction false} DroppedMembers(v: seq<Observer>, failing: set<Observer>)
    ensures forall w :: w in Dropped(v, failing) <==> w in v && Drops(w, failing)
  {
    if |v| > 0 {
      DroppedMembers(v[1..], failing);
      assert v == [v[0]] + v[1..];
    }
  }

  lemma {:induction false} HealthyAppend(v: seq<Observer>, w: Observer, failing: set<Observer>)
    ensures Healthy(v + [w], failing) == Healthy(v, failing) + (if Drops(w, failing) then [] else [w])
  {
    if |v| == 0 {
      assert v + [w] == [w];
    } else {
      assert (v + [w])[1..] == v[1..] + [w];
      HealthyAppend(v[1..], w, failing);
      var x := if Drops(v[0], failing) then [] else [v[0]];
      assert Healthy(v + [w], failing) == x + Healthy(v[1..] + [w], failing);
      ConcatAssoc(x, Healthy(v[1..], failing), if Drops(w, failing) then [] else [w]);
    }
  }

  predicate IsSubsequence<T(==)>(a: seq<T>, b: seq<T>)
    decreases |b|
  {
    |a| == 0 || (|b| > 0 && ((a[0] == b[0] && IsSubsequence(a[1..], b[1..])) || IsSubsequence(a, b[1..])))
  }

  lemma {:induction false} SubsequenceReflexive<T>(a: seq<T>)
    ensures IsSubsequence(a, a)
  {
    if |a| > 0 {
      SubsequenceReflexive(a[1..]);
    }
  }

  lemma {:induction false} SubsequenceTransitive<T>(a: seq<T>, b: seq<T>, c: seq<T>)
    requires IsSubsequence(a, b) && IsSubsequence(b, c)
    ensures IsSubsequence(a, c)
    decreases |c|
  {
    if |a| > 0 {
      if b[0] == c[0] && IsSubsequence(b[1..], c[1..]) {
        if a[0] == b[0] && IsSubsequence(a[1..], b[1..]) {
          SubsequenceTransitive(a[1..], b[1..], c[1..]);
        } else {
          SubsequenceTransitive(a, b[1..], c[1..]);
        }
      } else {
        SubsequenceTransitive(a, b, c[1..]);
      }
    }
  }

  lemma RemoveFirstCons<T>(s: seq<T>, x: T)
    requires x in s
    ensures s[0] == x ==> RemoveFirst(s, x) == s[1..]
    ensures s[0] != x ==> x in s[1..] && RemoveFirst(s, x) == [s[0]] + RemoveFirst(s[1..], x)
  {
    if s[0] != x {
      assert x in s[1..];
      var k := IndexOf(s[1..], x);
      assert IndexOf(s, x) == k + 1;
      assert s[..k + 1] == [s[0]] + s[1..][..k];
      assert s[k + 2..] == s[1..][k + 1..];
    }
  }

  lemma {:induction false} RemoveFirstSubsequence<T>(s: seq<T>, x: T)
    requires x in s
    ensures IsSubsequence(RemoveFirst(s, x), s)
  {
    RemoveFirstCons(s, x);
    if s[0] == x {
      SubsequenceReflexive(s[1..]);
    } else {
      RemoveFirstSubsequence(s[1..], x);
      assert ([s[0]] + RemoveFirst(s[1..], x))[1..] == RemoveFirst(s[1..], x);
    }
  }

  /** notify_all never adds an observer and keeps the survivors in their relative order. */
  lemma {:induction false} NotifyPassKeepsOrder(obs: seq<Observer>, i: nat, failing: set<Observer>)
    ensures IsSubsequence(NotifyPass(obs, i, failing).remaining, obs)
    decreases |obs| - i
  {
    if i >= |obs| {
      SubsequenceReflexive(obs);
    } else {
      var w := obs[i];
      NotifyPassStep(obs, i, failing);
      if Drops(w, failing) {
        var next := RemoveFirst(obs, w);
        NotifyPassKeepsOrder(next, i + 1, failing);
        RemoveFirstSubsequence(obs, w);
        SubsequenceTransitive(NotifyPass(next, i + 1, failing).remaining, next, obs);
      } else {
        NotifyPassKeepsOrder(obs, i + 1, failing);
      }
    }
  }

  lemma RemoveFirstMultiset<T>(s: seq<T>, x: T)
    requires x in s
    ensures multiset(RemoveFirst(s, x)) + multiset{x} == multiset(s)
  {
    var k := IndexOf(s, x);
    assert s == s[..k] + [x] + s[k + 1..];
  }

  lemma DroppedCons(w: Observer, v: seq<Observer>, failing: set<Observer>)
    ensures Dropped([w] + v, failing) == (if Drops(w, failing) then [w] else []) + Dropped(v, failing)
  {
    assert ([w] + v)[1..] == v;
  }

  /**
   * Exactly the dropping entries the loop reads are removed: what remains plus
   * what was removed is what was registered.
   */
  lemma {:induction false} NotifyPassAccounts(obs: seq<Observer>, i: nat, failing: set<Observer>)
    ensures multiset(NotifyPass(obs, i, failing).remaining) +
            multiset(Dropped(NotifyPass(obs, i, failing).visited, failing)) == multiset(obs)
    decreases |obs| - i
  {
    if i < |obs| {
      var w := obs[i];
      var next := AfterRead(obs, i, failing);
      var b := NotifyPass(next, i + 1, failing);
      NotifyPassStep(obs, i, failing);
      NotifyPassAccounts(next, i + 1, failing);
      assert multiset(b.remaining) + multiset(Dropped(b.visited, failing)) == multiset(next);
      DroppedCons(w, b.visited, failing);
      if Drops(w, failing) {
        RemoveFirstMultiset(obs, w);
        assert multiset(Dropped([w] + b.visited, failing)) == multiset{w} + multiset(Dropped(b.visited, failing));
      } else {
        assert Dropped([w] + b.visited, failing) == Dropped(b.visited, failing);
      }
    }
  }

  /** No entry whose send succeeds is ever removed, however often it occurs. */
  lemma NotifyPassKeepsHealthy(obs: seq<Observer>, failing: set<Observer>, w: Observer)
    requires !Drops(w, failing)
    ensures multiset(NotifyPass(obs, 0, failing).remaining)[w] == multiset(obs)[w]
  {
    NotifyPassAccounts(obs, 0, failing);
    var d := Dropped(NotifyPass(obs, 0, failing).visited, failing);
    DroppedMembers(NotifyPass(obs, 0, failing).visited, failing);
    assert w !in d;
    assert multiset(d)[w] == 0;
  }

  function Tail<T>(s: seq<T>, i: nat): seq<T>
  {
    if i <= |s| then s[i..] else []
  }

  lemma TailAfterRemoval(obs: seq<Observer>, i: nat)
    requires i < |obs|
    ensures multiset(Tail(RemoveFirst(obs, obs[i]), i + 1)) <= multiset(obs[i + 1..])
  {
    var next := RemoveFirst(obs, obs[i]);
    var k := IndexOf(obs, obs[i]);
    assert k <= i;
    if i + 1 <= |next| {
      assert next[i + 1..] == obs[i + 2..];
      assert obs[i + 1..] == [obs[i + 1]] + obs[i + 2..];
    }
  }

  lemma TailAfterRead(obs: seq<Observer>, i: nat, failing: set<Observer>)
    requires i < |obs|
    ensures multiset(Tail(AfterRead(obs, i, failing), i + 1)) <= multiset(obs[i + 1..])
  {
    if Drops(obs[i], failing) {
      TailAfterRemoval(obs, i);
    }
  }

  lemma TailCons<T>(s: seq<T>, i: nat)
    requires i < |s|
    ensures Tail(s, i) == [s[i]] + s[i + 1..]
  {
  }

  lemma ConcatAssoc<T>(a: seq<T>, b: seq<T>, c: seq<T>)
    ensures a + (b + c) == (a + b) + c
  {
  }

  lemma MultisetConsLe<T>(w: T, a: seq<T>, m: seq<T>, b: seq<T>)
    requires multiset(a) <= multiset(m) <= multiset(b)
    ensures multiset([w] + a) <= multiset([w] + b)
  {
    assert multiset([w] + a) == multiset{w} + multiset(a);
    assert multiset([w] + b) == multiset{w} + multiset(b);
  }

  /** A pass resumed at index i reads only entries found at index i or later. */
  lemma {:induction false} NotifyPassReadsTail(obs: seq<Observer>, i: nat, failing: set<Observer>)
    ensures multiset(NotifyPass(obs, i, failing).visited) <= multiset(Tail(obs, i))
    decreases |obs| - i
  {
    if i < |obs| {
      var w := obs[i];
      var next := AfterRead(obs, i, failing);
      var b := NotifyPass(next, i + 1, failing);
      NotifyPassStep(obs, i, failing);
      NotifyPassReadsTail(next, i + 1, failing);
      TailAfterRead(obs, i, failing);
      MultisetConsLe(w, b.visited, Tail(next, i + 1), obs[i + 1..]);
      TailCons(obs, i);
    }
  }

  /**
   * Removing an entry skips its successor: when the entries are distinct and the
   * entry at index i is removed, the one after it is not read in this pass.
   */
  lemma NotifyPassSkipsSuccessor(obs: seq<Observer>, i: nat, failing: set<Observer>)
    requires forall a, b :: 0 <= a < b < |obs| ==> obs[a] != obs[b]
    requires i + 1 < |obs| && Drops(obs[i], failing)
    ensures obs[i + 1] !in NotifyPass(obs, i, failing).visited
  {
    var next := AfterRead(obs, i, failing);
    var b := NotifyPass(next, i + 1, failing);
    NotifyPassStep(obs, i, failing);
    NotifyPassReadsTail(next, i + 1, failing);
    RemoveDistinctTail(obs, i);
    DistinctNotLater(obs, i + 1);
    assert multiset(b.visited) <= multiset(obs[i + 2..]);
    assert obs[i + 1] !in multiset(b.visited);
    assert obs[i + 1] != obs[i];
  }

  /** Removing the entry at index i of a list of distinct entries shifts the later ones down one place. */
  lemma RemoveDistinctTail(obs: seq<Observer>, i: nat)
    requires forall a, b :: 0 <= a < b < |obs| ==> obs[a] != obs[b]
    requires i + 1 < |obs|
    ensures Tail(RemoveFirst(obs, obs[i]), i + 1) == obs[i + 2..]
  {
    var k := IndexOf(obs, obs[i]);
    assert k == i;
    var next := RemoveFirst(obs, obs[i]);
    assert next[i + 1..] == obs[i + 2..];
  }

  lemma DistinctNotLater(obs: seq<Observer>, j: nat)
    requires forall a, b :: 0 <= a < b < |obs| ==> obs[a] != obs[b]
    requires j < |obs|
    ensures obs[j] !in multiset(obs[j + 1..])
  {
    var t := obs[j + 1..];
    forall k | 0 <= k < |t|
      ensures t[k] != obs[j]
    {
      assert t[k] == obs[j + 1 + k];
    }
    assert obs[j] !in t;
  }

  /** With no entry to drop the pass reads every entry and removes none. */
  lemma {:induction false} NotifyPassAllHealthy(obs: seq<Observer>, i: nat, failing: set<Observer>)
    requires i <= |obs|
    requires forall j :: 0 <= j < |obs| ==> !Drops(obs[j], failing)
    ensures NotifyPass(obs, i, failing) == Broadcast(obs, obs[i..])
    decreases |obs| - i
  {
    if i < |obs| {
      NotifyPassAllHealthy(obs, i + 1, failing);
      assert obs[i..] == [obs[i]] + obs[i + 1..];
    }
  }

  /** Two failing sockets: the second one is skipped and stays registered. */
  lemma NotifyPassExampleTwoFailing()
    ensures NotifyPass([Socket(1), Socket(2)], 0, {Socket(1), Socket(2)}) == Broadcast([Socket(2)], [Socket(1)])
  {
    assert RemoveFirst([Socket(1), Socket(2)], Socket(1)) == [Socket(2)];
  }

  /** A failing socket followed by a healthy one: the healthy one is not sent the message. */
  lemma NotifyPassExampleMissedDelivery()
    ensures NotifyPass([Socket(1), Socket(2)], 0, {Socket(1)}) == Broadcast([Socket(2)], [Socket(1)])
    ensures Healthy(NotifyPass([Socket(1), Socket(2)], 0, {Socket(1)}).visited, {Socket(1)}) == []
    ensures Healthy([Socket(1), Socket(2)], {Socket(1)}) == [Socket(2)]
  {
    assert RemoveFirst([Socket(1), Socket(2)], Socket(1)) == [Socket(2)];
  }

  /**
   * The broadcast as intended: every registered entry is read, every healthy
   * one is sent the message and kept, every dropping one is removed.
   */
  function SnapshotBroadcast(obs: seq<Observer>, failing: set<Observer>): (b: Broadcast)
    ensures b.visited == obs
  {
    Broadcast(Healthy(obs, failing), obs)
  }

  /** The intended broadcast keeps exactly the healthy entries, in their order. */
  lemma SnapshotBroadcastMeaning(obs: seq<Observer>, failing: set<Observer>)
    ensures forall w :: w in SnapshotBroadcast(obs, failing).remaining <==> w in obs && !Drops(w, failing)
    ensures IsSubsequence(SnapshotBroadcast(obs, failing).remaining, obs)
  {
    HealthySubsequence(obs, failing);
    HealthyMembers(obs, failing);
  }

  lemma {:induction false} HealthySubsequence(v: seq<Observer>, failing: set<Observer>)
    ensures IsSubsequence(Healthy(v, failing), v)
  {
    if |v| > 0 {
      var rest := Healthy(v[1..], failing);
      HealthySubsequence(v[1..], failing);
      if !Drops(v[0], failing) {
        assert Healthy(v, failing) == [v[0]] + rest;
        assert ([v[0]] + rest)[1..] == rest;
      } else {
        assert Healthy(v, failing) == rest;
      }
    }
  }

  /** The pass as written removes no more than the intended broadcast does. */
  lemma NotifyPassKeepsSnapshotSurvivors(obs: seq<Observer>, failing: set<Observer>)
    ensures forall w :: w in SnapshotBroadcast(obs, failing).remaining ==> w in NotifyPass(obs, 0, failing).remaining
  {
    SnapshotBroadcastMeaning(obs, failing);
    forall w | w in SnapshotBroadcast(obs, failing).remaining
      ensures w in NotifyPass(obs, 0, failing).remaining
    {
      NotifyPassKeepsHealthy(obs, failing, w);
    }
  }

  // ---------------------------------------------------------------------------
  // The record file name

  /** filename + '/' + started.strftime('%Y_%m_%d-%H_%M') + '.pickle' */
  function RecordFileName(dir: string, t: DateTime): string
    requires ValidDateTime(t)
  {
    dir + "/" + NatToString(t.year) + "_" + Pad2(t.month) + "_" + Pad2(t.day) + "-" +
    Pad2(t.hour) + "_" + Pad2(t.minute) + ".pickle"
  }

  function NameTail(t: DateTime): (s: string)
    requires ValidDateTime(t)
    ensures |s| == 19
  {
    "_" + Pad2(t.month) + "_" + Pad2(t.day) + "-" + Pad2(t.hour) + "_" + Pad2(t.minute) + ".pickle"
  }

  lemma ConcatSameTail(a: string, b: string, c: string, d: string)
    requires a + b == c + d && |b| == |d|
    ensures a == c && b == d
  {
    assert a == (a + b)[..|a|];
    assert c == (c + d)[..|c|];
    assert b == (a + b)[|a|..];
    assert d == (c + d)[|c|..];
  }

  lemma Pad2At(s: string, k: nat, n: nat)
    requires n < 100 && k + 2 <= |s| && s[k..k + 2] == Pad2(n)
    ensures n == 10 * DigitValue(s[k]) + DigitValue(s[k + 1])
  {
    assert s[k] == Pad2(n)[0] && s[k + 1] == Pad2(n)[1];
  }

  lemma NameTailInjective(t: DateTime, u: DateTime)
    requires ValidDateTime(t) && ValidDateTime(u) && NameTail(t) == NameTail(u)
    ensures t.month == u.month && t.day == u.day && t.hour == u.hour && t.minute == u.minute
  {
    var a := NameTail(t);
    assert a[1..3] == Pad2(t.month) && a[4..6] == Pad2(t.day);
    assert a[7..9] == Pad2(t.hour) && a[10..12] == Pad2(t.minute);
    var b := NameTail(u);
    assert b[1..3] == Pad2(u.month) && b[4..6] == Pad2(u.day);
    assert b[7..9] == Pad2(u.hour) && b[10..12] == Pad2(u.minute);
    Pad2At(a, 1, t.month); Pad2At(b, 1, u.month);
    Pad2At(a, 4, t.day); Pad2At(b, 4, u.day);
    Pad2At(a, 7, t.hour); Pad2At(b, 7, u.hour);
    Pad2At(a, 10, t.minute); Pad2At(b, 10, u.minute);
  }

  lemma RecordFileNameSplit(dir: string, t: DateTime)
    requires ValidDateTime(t)
    ensures RecordFileName(dir, t) == (dir + "/") + NatToString(t.year) + NameTail(t)
  {
  }

  /** Two start times give the same record file exactly when they agree to the minute. */
  lemma RecordFileNameSameExactly(dir: string, t: DateTime, u: DateTime)
    requires ValidDateTime(t) && ValidDateTime(u)
    ensures RecordFileName(dir, t) == RecordFileName(dir, u) <==> SameMinute(t, u)
  {
    var head := dir + "/";
    var yt, yu := NatToString(t.year), NatToString(u.year);
    RecordFileNameSplit(dir, t);
    RecordFileNameSplit(dir, u);
    if RecordFileName(dir, t) == RecordFileName(dir, u) {
      ConcatSameTail(head + yt, NameTail(t), head + yu, NameTail(u));
      ConcatSameTail(head, yt, head, yu);
      NatToStringInjective(t.year, u.year);
      NameTailInjective(t, u);
    }
  }

  // ---------------------------------------------------------------------------
  // The monitor object

  class OvenMonitor {
    var lastProfile: Option<Profile>
    var lastLog: seq<Sample>
    var started: Option<DateTime>
    var recording: bool
    var observers: seq<Observer>
    /** Set by record() only; before that the attribute does not exist. */
    var emailDestination: Option<seq<string>>
    const analysisSettings: map<string, real>

    /** Everything record() sets is set together, and a recorded run has at least one sample. */
    ghost predicate Valid()
      reads this
    {
      (started.Some? <==> lastProfile.Some?) &&
      (started.Some? <==> emailDestination.Some?) &&
      (started.Some? ==> ValidDateTime(started.value) && |lastLog| >= 1) &&
      (recording ==> started.Some?)
    }

    constructor (analysisSettings: map<string, real>)
      ensures Valid()
      ensures lastProfile == None && lastLog == [] && started == None && !recording
      ensures observers == [] && emailDestination == None
      ensures this.analysisSettings == analysisSettings
    {
      lastProfile := None;
      lastLog := [];
      started := None;
      recording := false;
      observers := [];
      emailDestination := None;
      this.analysisSettings := analysisSettings;
    }

    /** One iteration of the poll loop: record a RUNNING sample, else stop recording; then broadcast. */
    method Tick(sample: Sample, failing: set<Observer>) returns (delivered: seq<Observer>)
      requires Valid()
      modifies this
      ensures Valid()
      ensures IsRunning(sample) ==> lastLog == old(lastLog) + [sample] && recording == old(recording)
      ensures !IsRunning(sample) ==> lastLog == old(lastLog) && !recording
      ensures observers == NotifyPass(old(observers), 0, failing).remaining
      ensures delivered == Healthy(NotifyPass(old(observers), 0, failing).visited, failing)
      ensures lastProfile == old(lastProfile) && started == old(started)
      ensures emailDestination == old(emailDestination)
    {
      if IsRunning(sample) {
        lastLog := lastLog + [sample];
      } else {
        recording := false;
      }
      delivered := NotifyAll(failing);
    }

    /** record(profile, emails): start a new run seeded with the oven's current reading. */
    method Record(profile: Profile, emails: seq<string>, now: DateTime, current: Sample)
      requires Valid() && ValidDateTime(now)
      modifies this
      ensures Valid()
      ensures lastProfile == Some(profile) && lastLog == [current] && started == Some(now)
      ensures recording && emailDestination == Some(emails)
      ensures observers == old(observers)
    {
      lastProfile := Some(profile);
      lastLog := [];
      started := Some(now);
      recording := true;
      emailDestination := Some(emails);
      lastLog := lastLog + [current];
    }

    /**
     * add_observer: build the backlog, try to send it (sendFails: the send
     * raises), and register the observer whatever the outcome.
     */
    method AddObserver(o: Observer, sendFails: bool) returns (backlog: Backlog, sent: bool)
      requires Valid()
      modifies this
      ensures Valid()
      ensures backlog == MakeBacklog(old(lastProfile), old(lastLog))
      ensures sent <==> o.Socket? && !sendFails
      ensures observers == old(observers) + [o]
      ensures lastProfile == old(lastProfile) && lastLog == old(lastLog) && started == old(started)
      ensures recording == old(recording) && emailDestination == old(emailDestination)
    {
      backlog := MakeBacklog(lastProfile, lastLog);
      sent := o.Socket? && !sendFails;
      observers := observers + [o];
    }

    /** notify_all as written: entries are removed from the list the loop is walking. */
    method NotifyAll(failing: set<Observer>) returns (delivered: seq<Observer>)
      modifies this`observers
      ensures observers == NotifyPass(old(observers), 0, failing).remaining
      ensures delivered == Healthy(NotifyPass(old(observers), 0, failing).visited, failing)
    {
      ghost var visited: seq<Observer> := [];
      ghost var total := NotifyPass(observers, 0, failing);
      delivered := [];
      var i := 0;
      while i < |observers|
        invariant total.remaining == NotifyPass(observers, i, failing).remaining
        invariant total.visited == visited + NotifyPass(observers, i, failing).visited
        invariant delivered == Healthy(visited, failing)
        decreases |observers| - i
      {
        var w := observers[i];
        ghost var next := AfterRead(observers, i, failing);
        ghost var b := NotifyPass(next, i + 1, failing);
        NotifyPassStep(observers, i, failing);
        if w.Socket? && w !in failing {
          delivered := delivered + [w];
        } else {
          observers := RemoveFirst(observers, w);
        }
        assert observers == next;
        HealthyAppend(visited, w, failing);
        ConcatAssoc(visited, [w], b.visited);
        visited := visited + [w];
        i := i + 1;
      }
      assert NotifyPass(observers, i, failing) == Broadcast(observers, []);
      assert visited + [] == visited;
    }

    /** The corrected broadcast: walk a copy of the list, then drop what failed. */
    method NotifyAllSnapshot(failing: set<Observer>) returns (delivered: seq<Observer>)
      modifies this`observers
      ensures observers == SnapshotBroadcast(old(observers), failing).remaining
      ensures delivered == observers
    {
      var snapshot := observers;
      var kept: seq<Observer> := [];
      var i := 0;
      while i < |snapshot|
        invariant 0 <= i <= |snapshot|
        invariant kept == Healthy(snapshot[..i], failing)
      {
        var w := snapshot[i];
        HealthyAppend(snapshot[..i], w, failing);
        assert snapshot[..i + 1] == snapshot[..i] + [w];
        if w.Socket? && w !in failing {
          kept := kept + [w];
        }
        i := i + 1;
      }
      assert snapshot[..i] == snapshot;
      observers := kept;
      delivered := kept;
    }

    /** save_record_to_file's output name and the record it writes (the pickle itself is I/O). */
    method SaveRecordToFile(dir: string) returns (r: Result<(string, seq<Sample>), MonitorError>)
      requires Valid()
      ensures r.Failure? <==> started.None?
      ensures r.Success? ==> r.value == (RecordFileName(dir, started.value), lastLog)
    {
      if started.None? {
        return Failure(NotStarted);
      }
      r := Success((RecordFileName(dir, started.value), lastLog));
    }
  }
}
