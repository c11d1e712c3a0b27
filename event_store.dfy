/**
 * The bounded per-job event store (src/agent/EventStore.ts): for every job id a tail of at
 * most `maxTail` events, oldest evicted first, read back with an exclusive timestamp cursor.
 */
module EventStore {
  import opened Wrappers
  import opened Types

  /** JavaScript's `a < b` on strings: lexicographic order on characters. */
  predicate LexLess(a: string, b: string)
  {
    if |a| == 0 then |b| > 0
    else if |b| == 0 then false
    else if a[0] == b[0] then LexLess(a[1..], b[1..])
    else a[0] < b[0]
  }

  lemma {:induction false} LexLessIrreflexive(a: string)
    ensures !LexLess(a, a)
  {
    if |a| > 0 {
      LexLessIrreflexive(a[1..]);
    }
  }

  lemma {:induction false} LexLessTransitive(a: string, b: string, c: string)
    requires LexLess(a, b) && LexLess(b, c)
    ensures LexLess(a, c)
  {
    if |a| > 0 && |b| > 0 && |c| > 0 && a[0] == b[0] && b[0] == c[0] {
      LexLessTransitive(a[1..], b[1..], c[1..]);
    }
  }

  /** Exactly one of `a < b`, `a == b`, `b < a` holds. */
  lemma {:induction false} LexLessTrichotomy(a: string, b: string)
    ensures LexLess(a, b) || a == b || LexLess(b, a)
    ensures !(LexLess(a, b) && LexLess(b, a))
  {
    if |a| > 0 && |b| > 0 && a[0] == b[0] {
      LexLessTrichotomy(a[1..], b[1..]);
      assert a == [a[0]] + a[1..] && b == [b[0]] + b[1..];
    }
  }

  /** `tails.get(jobId) ?? []`. */
  function TailOf(tails: map<string, seq<Event>>, jobId: string): seq<Event>
  {
    if jobId in tails then tails[jobId] else []
  }

  /** The tail after `list.push(event)` and, if it then exceeds `cap`, one `list.shift()`. */
  function Push(tail: seq<Event>, e: Event, cap: nat): (r: seq<Event>)
    ensures |tail| <= cap ==> |r| <= cap
    ensures cap > 0 ==> |r| > 0 && r[|r| - 1] == e
    ensures |tail| < cap ==> r == tail + [e]
    ensures 0 < |tail| == cap ==> r == tail[1..] + [e]
  {
    var list := tail + [e];
    if |list| > cap then list[1..] else list
  }

  /** The last `n` elements of `s` (all of it when it is shorter). */
  function LastN(s: seq<Event>, n: nat): (r: seq<Event>)
    ensures |r| == if |s| <= n then |s| else n
    ensures r == s[|s| - |r|..]
  {
    if |s| <= n then s else s[|s| - n..]
  }

  /** Appending `events` one by one, the oldest first. */
  function PushAll(tail: seq<Event>, events: seq<Event>, cap: nat): seq<Event>
  {
    if |events| == 0 then tail
    else Push(PushAll(tail, events[..|events| - 1], cap), events[|events| - 1], cap)
  }

  /** One append keeps the newest `cap` events. */
  lemma LastNPush(x: seq<Event>, e: Event, cap: nat)
    ensures Push(LastN(x, cap), e, cap) == LastN(x + [e], cap)
  {
    var l := LastN(x, cap);
    if |x| + 1 > cap {
      if |x| <= cap {
        assert l == x;
      } else {
        assert (l + [e])[1..] == (x + [e])[|x| + 1 - cap..];
      }
    }
  }

  /**
   * FIFO eviction: whatever the interleaving of overflows, a tail that starts within its
   * capacity ends up holding exactly the `cap` newest of all the events it has seen.
   */
  lemma {:induction false} PushAllKeepsNewest(tail: seq<Event>, events: seq<Event>, cap: nat)
    requires |tail| <= cap
    ensures PushAll(tail, events, cap) == LastN(tail + events, cap)
  {
    if |events| == 0 {
      assert tail + events == tail;
    } else {
      var init := events[..|events| - 1];
      var e := events[|events| - 1];
      PushAllKeepsNewest(tail, init, cap);
      assert tail + events == (tail + init) + [e];
      LastNPush(tail + init, e, cap);
    }
  }

  /** Replaying a tail that fits into an empty slot gives the same tail back. */
  lemma ReplayFittingTail(events: seq<Event>, cap: nat)
    requires |events| <= cap
    ensures PushAll([], events, cap) == events
  {
    PushAllKeepsNewest([], events, cap);
    assert [] + events == events;
  }

  /** The store after `append(jobId, e)`: only the tail keyed by `jobId` changes. */
  function AppendTail(tails: map<string, seq<Event>>, jobId: string, e: Event, cap: nat): (r: map<string, seq<Event>>)
    ensures r.Keys == tails.Keys + {jobId}
    ensures r[jobId] == Push(TailOf(tails, jobId), e, cap)
    ensures forall id :: id in tails && id != jobId ==> r[id] == tails[id]
  {
    tails[jobId := Push(TailOf(tails, jobId), e, cap)]
  }

  /** The events of `tail` whose timestamp is strictly greater than `since`, in stored order. */
  function After(tail: seq<Event>, since: string): (r: seq<Event>)
    ensures |r| <= |tail|
    ensures forall e :: e in r ==> e in tail && LexLess(since, e.timestamp)
    ensures forall e :: e in tail && LexLess(since, e.timestamp) ==> e in r
  {
    if tail == [] then []
    else (if LexLess(since, tail[0].timestamp) then [tail[0]] else []) + After(tail[1..], since)
  }

  /** Filtering keeps the stored order: filtering a concatenation concatenates the filtered parts. */
  lemma AfterAppend(a: seq<Event>, b: seq<Event>, since: string)
    ensures After(a + b, since) == After(a, since) + After(b, since)
  {
    var keep := (e: Event) => LexLess(since, e.timestamp);
    AfterIsFilter(a + b, since);
    AfterIsFilter(a, since);
    AfterIsFilter(b, since);
    FilterAppend(a, b, keep);
  }

  /** The elements of `s` that `keep` accepts, in order. */
  function Filter<T>(s: seq<T>, keep: T -> bool): seq<T>
  {
    if s == [] then [] else (if keep(s[0]) then [s[0]] else []) + Filter(s[1..], keep)
  }

  lemma {:induction false} FilterAppend<T>(a: seq<T>, b: seq<T>, keep: T -> bool)
    ensures Filter(a + b, keep) == Filter(a, keep) + Filter(b, keep)
  {
    if a != [] {
      FilterAppend(a[1..], b, keep);
      assert (a + b)[0] == a[0] && (a + b)[1..] == a[1..] + b;
    } else {
      assert a + b == b;
    }
  }

  /** The cursor filter is the filter on "timestamp after `since`". */
  lemma {:induction false} AfterIsFilter(tail: seq<Event>, since: string)
    ensures After(tail, since) == Filter(tail, (e: Event) => LexLess(since, e.timestamp))
  {
    if tail != [] {
      AfterIsFilter(tail[1..], since);
    }
  }

  /** `getSince(jobId, since)`: the whole tail when `since` is absent or empty, else the filter. */
  function Since(tails: map<string, seq<Event>>, jobId: string, since: Option<string>): (r: seq<Event>)
    ensures jobId !in tails ==> r == []
    ensures since.None? || since == Some("") ==> r == TailOf(tails, jobId)
    ensures since.Some? && since.value != "" ==>
      forall e :: e in r <==> e in TailOf(tails, jobId) && LexLess(since.value, e.timestamp)
    ensures since.Some? && since.value != "" ==> r == After(TailOf(tails, jobId), since.value)
  {
    var list := TailOf(tails, jobId);
    if since.None? || since.value == "" then list else After(list, since.value)
  }

  /** Timestamps never decrease along the tail. */
  ghost predicate Chronological(tail: seq<Event>)
  {
    forall i, j :: 0 <= i < j < |tail| ==> !LexLess(tail[j].timestamp, tail[i].timestamp)
  }

  /** Nothing is returned when no timestamp is past the cursor. */
  lemma {:induction false} AfterNone(tail: seq<Event>, since: string)
    requires forall i :: 0 <= i < |tail| ==> !LexLess(since, tail[i].timestamp)
    ensures After(tail, since) == []
  {
    if tail != [] {
      AfterNone(tail[1..], since);
    }
  }

  /** Polling with the newest timestamp as cursor returns nothing. */
  lemma NewestCursorIsEmpty(tail: seq<Event>)
    requires tail != [] && Chronological(tail)
    ensures After(tail, tail[|tail| - 1].timestamp) == []
  {
    var last := tail[|tail| - 1].timestamp;
    LexLessIrreflexive(last);
    AfterNone(tail, last);
  }

  /** When every event is past the cursor, the filter keeps the whole tail. */
  lemma {:induction false} AfterAll(tail: seq<Event>, since: string)
    requires forall i :: 0 <= i < |tail| ==> LexLess(since, tail[i].timestamp)
    ensures After(tail, since) == tail
  {
    if tail != [] {
      AfterAll(tail[1..], since);
    }
  }

  /**
   * On a chronological tail the cursor cuts the tail in two: `getSince` returns exactly the
   * newest events, a suffix of the tail.
   */
  lemma {:induction false} ChronologicalAfterIsSuffix(tail: seq<Event>, since: string)
    requires Chronological(tail)
    ensures var r := After(tail, since); r == tail[|tail| - |r|..]
  {
    if tail != [] {
      if LexLess(since, tail[0].timestamp) {
        ChronologicalAllAfter(tail, since);
        AfterAll(tail, since);
      } else {
        var rest := tail[1..];
        ChronologicalRest(tail);
        ChronologicalAfterIsSuffix(rest, since);
        var r := After(rest, since);
        assert After(tail, since) == r;
        assert tail[|tail| - |r|..] == rest[|rest| - |r|..];
      }
    }
  }

  /** In a chronological tail whose first event is past the cursor, every event is. */
  lemma ChronologicalAllAfter(tail: seq<Event>, since: string)
    requires Chronological(tail) && tail != [] && LexLess(since, tail[0].timestamp)
    ensures forall i :: 0 <= i < |tail| ==> LexLess(since, tail[i].timestamp)
  {
    forall i | 0 < i < |tail| ensures LexLess(since, tail[i].timestamp) {
      LexLessTrichotomy(tail[0].timestamp, tail[i].timestamp);
      if tail[i].timestamp != tail[0].timestamp {
        LexLessTransitive(since, tail[0].timestamp, tail[i].timestamp);
      }
    }
  }

  /** Dropping the oldest event keeps a tail chronological. */
  lemma ChronologicalRest(tail: seq<Event>)
    requires Chronological(tail) && tail != []
    ensures Chronological(tail[1..])
  {
    var rest := tail[1..];
    forall i, j | 0 <= i < j < |rest| ensures !LexLess(rest[j].timestamp, rest[i].timestamp) {
      assert rest[i] == tail[i + 1] && rest[j] == tail[j + 1];
    }
  }

  /**
   * The store after replaying every tail of a snapshot through `append`, event by event. A job
   * whose saved list is empty is never appended to, so it gets no tail of its own.
   */
  function ReplayTails(tails: map<string, seq<Event>>, snapshot: map<string, seq<Event>>, cap: nat): (r: map<string, seq<Event>>)
    ensures r.Keys == tails.Keys + set id | id in snapshot && snapshot[id] != []
    ensures forall id :: id in tails && id !in snapshot ==> r[id] == tails[id]
  {
    map id | id in tails.Keys + (set id | id in snapshot && snapshot[id] != []) ::
      if id in snapshot then PushAll(TailOf(tails, id), snapshot[id], cap) else tails[id]
  }

  /** Every tail within its capacity. */
  ghost predicate Bounded(tails: map<string, seq<Event>>, cap: nat)
  {
    forall id :: id in tails ==> |tails[id]| <= cap
  }

  /** Appending never leaves an empty tail behind. */
  ghost predicate NonEmpty(tails: map<string, seq<Event>>)
  {
    forall id :: id in tails ==> tails[id] != []
  }

  /** Appending to a tail within its capacity keeps it there. */
  lemma {:induction false} PushAllBounded(tail: seq<Event>, events: seq<Event>, cap: nat)
    requires |tail| <= cap
    ensures |PushAll(tail, events, cap)| <= cap
  {
    if |events| > 0 {
      PushAllBounded(tail, events[..|events| - 1], cap);
    }
  }

  /** Replaying a snapshot, whatever it holds, keeps every tail within its capacity. */
  lemma ReplayBounded(tails: map<string, seq<Event>>, snapshot: map<string, seq<Event>>, cap: nat)
    requires Bounded(tails, cap)
    ensures Bounded(ReplayTails(tails, snapshot, cap), cap)
  {
    var r := ReplayTails(tails, snapshot, cap);
    forall id | id in r ensures |r[id]| <= cap {
      if id in snapshot {
        PushAllBounded(TailOf(tails, id), snapshot[id], cap);
      }
    }
  }

  /** The part of a snapshot whose job ids are in `ids`. */
  function Restrict(snapshot: map<string, seq<Event>>, ids: set<string>): (r: map<string, seq<Event>>)
    ensures r.Keys == snapshot.Keys * ids
    ensures forall id :: id in r ==> r[id] == snapshot[id]
  {
    map id | id in snapshot && id in ids :: snapshot[id]
  }

  /** Replaying nothing changes nothing. */
  lemma ReplayNothing(tails: map<string, seq<Event>>, cap: nat)
    ensures ReplayTails(tails, map[], cap) == tails
  {
  }

  /** A job with no saved events replays to no change. */
  lemma ReplayEmptyEntry(tails: map<string, seq<Event>>, m: map<string, seq<Event>>, id: string, cap: nat)
    requires id !in m
    ensures ReplayTails(tails, m[id := []], cap) == ReplayTails(tails, m, cap)
  {
  }

  /** What a job's tail becomes when its saved events are replayed. */
  lemma ReplayAt(tails: map<string, seq<Event>>, m: map<string, seq<Event>>, id: string,
                 events: seq<Event>, cap: nat)
    ensures TailOf(ReplayTails(tails, m[id := events], cap), id) == PushAll(TailOf(tails, id), events, cap)
    ensures events != [] ==> id in ReplayTails(tails, m[id := events], cap)
  {
  }

  /** The other jobs' tails do not depend on what is replayed for `id`. */
  lemma ReplayOther(tails: map<string, seq<Event>>, m: map<string, seq<Event>>, id: string,
                    x: seq<Event>, y: seq<Event>, cap: nat, k: string)
    requires k != id
    ensures k in ReplayTails(tails, m[id := x], cap) <==> k in ReplayTails(tails, m[id := y], cap)
    ensures k in ReplayTails(tails, m[id := x], cap) ==>
      ReplayTails(tails, m[id := x], cap)[k] == ReplayTails(tails, m[id := y], cap)[k]
  {
  }

  /** Replaying one more saved event of a job is one more `append`. */
  lemma ReplayStep(tails: map<string, seq<Event>>, m: map<string, seq<Event>>, id: string,
                   events: seq<Event>, j: nat, cap: nat)
    requires j < |events|
    ensures ReplayTails(tails, m[id := events[..j + 1]], cap)
         == AppendTail(ReplayTails(tails, m[id := events[..j]], cap), id, events[j], cap)
  {
    var prefix, longer := events[..j], events[..j + 1];
    var before := ReplayTails(tails, m[id := prefix], cap);
    var after := ReplayTails(tails, m[id := longer], cap);
    var appended := AppendTail(before, id, events[j], cap);
    assert longer[..j] == prefix;
    ReplayAt(tails, m, id, prefix, cap);
    ReplayAt(tails, m, id, longer, cap);
    forall k | k != id
      ensures (k in after <==> k in appended) && (k in after ==> after[k] == appended[k])
    {
      ReplayOther(tails, m, id, longer, prefix, cap, k);
    }
    assert after[id] == appended[id];
    assert after.Keys == appended.Keys;
    SameEntries(after, appended);
  }

  /** Two maps with the same keys and the same value at every key are equal. */
  lemma SameEntries(a: map<string, seq<Event>>, b: map<string, seq<Event>>)
    requires a.Keys == b.Keys && forall k :: k in a ==> a[k] == b[k]
    ensures a == b
  {
  }

  /** The store after `append(jobId, e)` for each event of `events` in turn. */
  function AppendEach(tails: map<string, seq<Event>>, jobId: string, events: seq<Event>, cap: nat): map<string, seq<Event>>
  {
    if |events| == 0 then tails
    else AppendTail(AppendEach(tails, jobId, events[..|events| - 1], cap), jobId, events[|events| - 1], cap)
  }

  /** Appending a job's saved events one by one is replaying that job's entry of the snapshot. */
  lemma {:induction false} AppendEachReplays(tails: map<string, seq<Event>>, m: map<string, seq<Event>>,
                                             id: string, events: seq<Event>, cap: nat)
    ensures AppendEach(ReplayTails(tails, m[id := []], cap), id, events, cap)
         == ReplayTails(tails, m[id := events], cap)
  {
    if |events| > 0 {
      var j := |events| - 1;
      assert events[..j + 1] == events;
      AppendEachReplays(tails, m, id, events[..j], cap);
      ReplayStep(tails, m, id, events, j, cap);
    }
  }

  /**
   * Replaying the snapshot job by job: with the jobs outside `todo` replayed, appending the
   * saved events of one more job replays the jobs outside `todo - {id}`.
   */
  lemma ReplayOneMore(tails: map<string, seq<Event>>, snapshot: map<string, seq<Event>>,
                      todo: set<string>, id: string, cap: nat)
    requires id in todo && todo <= snapshot.Keys
    ensures AppendEach(ReplayTails(tails, Restrict(snapshot, snapshot.Keys - todo), cap), id, snapshot[id], cap)
         == ReplayTails(tails, Restrict(snapshot, snapshot.Keys - (todo - {id})), cap)
  {
    var m := Restrict(snapshot, snapshot.Keys - todo);
    ReplayEmptyEntry(tails, m, id, cap);
    AppendEachReplays(tails, m, id, snapshot[id], cap);
    assert m[id := snapshot[id]] == Restrict(snapshot, snapshot.Keys - (todo - {id}));
  }

  /** Replaying nothing of the snapshot, and all of it. */
  lemma ReplayNoneOrAll(tails: map<string, seq<Event>>, snapshot: map<string, seq<Event>>, cap: nat)
    ensures ReplayTails(tails, Restrict(snapshot, snapshot.Keys - snapshot.Keys), cap) == tails
    ensures ReplayTails(tails, Restrict(snapshot, snapshot.Keys - {}), cap) == ReplayTails(tails, snapshot, cap)
  {
    assert Restrict(snapshot, snapshot.Keys - snapshot.Keys) == map[];
    assert Restrict(snapshot, snapshot.Keys - {}) == snapshot;
  }

  /** Saving the tails and replaying them into an empty store restores them exactly. */
  lemma SnapshotRoundTrip(tails: map<string, seq<Event>>, cap: nat)
    requires Bounded(tails, cap) && NonEmpty(tails)
    ensures ReplayTails(map[], tails, cap) == tails
  {
    forall id | id in tails ensures ReplayTails(map[], tails, cap)[id] == tails[id] {
      ReplayFittingTail(tails[id], cap);
    }
  }

  class EventStore {
    const maxTail: nat
    var tails: map<string, seq<Event>>

    ghost predicate Valid()
      reads this
    {
      maxTail > 0 && Bounded(tails, maxTail) && NonEmpty(tails)
    }

    constructor(maxTail: nat)
      requires maxTail > 0
      ensures Valid() && this.maxTail == maxTail && tails == map[]
    {
      this.maxTail := maxTail;
      tails := map[];
    }

    method Append(jobId: string, event: Event)
      requires Valid()
      modifies this
      ensures Valid()
      ensures tails == AppendTail(old(tails), jobId, event, maxTail)
    {
      var list := if jobId in tails then tails[jobId] else [];
      list := list + [event];
      if |list| > maxTail {
        list := list[1..];
      }
      tails := tails[jobId := list];
    }

    function GetSince(jobId: string, since: Option<string>): (r: seq<Event>)
      reads this
      ensures r == Since(tails, jobId, since)
    {
      Since(tails, jobId, since)
    }

    /** `Object.fromEntries(tails)`: loading it back into an empty store gives this store. */
    function Snapshot(): (r: map<string, seq<Event>>)
      requires Valid()
      reads this
      ensures r.Keys == tails.Keys && forall id :: id in r ==> r[id] == tails[id]
      ensures ReplayTails(map[], r, maxTail) == tails
    {
      SnapshotRoundTrip(tails, maxTail);
      tails
    }
  }
}
