/**
 * The per-feed listener `listenForPosts`: it reads the feed's post stream,
 * admits fresh posts, notifies subscribers about every post still unsent,
 * saves the feed's checkpoint, and retries the stream a bounded number of
 * times when it fails.
 *
 * The stream and the outcome of each dispatch come in as a sequence of
 * events. `Next` and `NextAll` say what one event and a run of events do to
 * the listener's state; the class `FeedWatcher` does the same step by step
 * on its fields and on the shared checkpoint store, and is proved to agree.
 */
module Watcher {
  import opened Wrappers
  import opened CheckpointText
  import opened Checkpoints

  /** `max_retires`: stream failures tolerated before the listener gives up. */
  const MaxRetries: nat := 5
  /** Posts older than this many seconds when seen are not notified. */
  const MaxPostAge: int := 1800

  /** A submission: its identity and its creation time in whole seconds. */
  datatype Post = Post(id: string, created: int)

  /** How the notification transport behaves during one dispatch pass:
      every call succeeds, or the call with this index (from 0) raises. */
  datatype Transport = Healthy | FailsOnCall(call: nat)

  /** What the listener observes next. */
  datatype Event =
    | Arrival(post: Post, now: int, runningFile: bool, transport: Transport)  // the stream yields a post
    | StreamError                                                             // the stream raises
    | StreamEnd                                                               // the stream finishes

  /** Messages to the developer. */
  datatype Alert = DispatchFailed | RetriesExhausted

  /** The listener's start time: the stored checkpoint, or `now` when there is none or it is 0. */
  function StartTime(stored: map<string, int>, feed: string, now: int): int
  {
    var saved := if feed in stored then stored[feed] else 0;
    if saved == 0 then now else saved
  }

  /** The admission filter: the running file exists, the post is newer than
      the start time, and it is at most `MaxPostAge` seconds old. */
  predicate Admit(startTime: int, post: Post, now: int, runningFile: bool)
  {
    runningFile && post.created > startTime && now - post.created <= MaxPostAge
  }

  /** `unsent_submissions.add(post)`. */
  function AddUnsent(unsent: seq<Post>, post: Post): seq<Post>
  {
    if post in unsent then unsent else unsent + [post]
  }

  /** A pass over `n` unsent posts completes when no call of it raises. */
  predicate PassSucceeds(transport: Transport, n: nat)
  {
    transport.Healthy? || transport.call >= n
  }

  predicate Distinct(posts: seq<Post>)
  {
    forall i, j :: 0 <= i < j < |posts| ==> posts[i] != posts[j]
  }

  /** `posts` without `x`. */
  function Without(posts: seq<Post>, x: Post): seq<Post>
  {
    if posts == [] then [] else (if posts[0] == x then [] else [posts[0]]) + Without(posts[1..], x)
  }

  /**
   * The listener's state between two events. `dispatched` records every
   * notification that went out, `alerts` every message to the developer and
   * `written` every checkpoint value saved, in order.
   */
  datatype WatchState = WatchState(
    unsent: seq<Post>,
    retryCount: nat,
    listening: bool,
    safeToStop: bool,
    dispatched: seq<Post>,
    alerts: seq<Alert>,
    written: seq<int>)

  /** A listener that has just started. */
  function Initial(): WatchState
  {
    WatchState([], 0, true, true, [], [], [])
  }

  /** An admitted post: it joins the unsent set, one dispatch pass runs, and the post's time is saved as the checkpoint. */
  function AfterArrival(s: WatchState, post: Post, transport: Transport): WatchState
  {
    var pending := AddUnsent(s.unsent, post);
    var passed :=
      if PassSucceeds(transport, |pending|) then
        s.(unsent := [], retryCount := 0, dispatched := s.dispatched + pending)
      else
        s.(unsent := pending, dispatched := s.dispatched + pending[..transport.call],
           alerts := s.alerts + [DispatchFailed]);
    passed.(written := s.written + [post.created], safeToStop := true)
  }

  /** The stream raised: one more retry, or the listener alerts the developer and returns. */
  function AfterStreamError(s: WatchState): WatchState
  {
    var retries := s.retryCount + 1;
    s.(retryCount := retries, listening := retries < MaxRetries, safeToStop := true,
       alerts := if retries >= MaxRetries then s.alerts + [RetriesExhausted] else s.alerts)
  }

  /** One event, as the listener's loops handle it. Once the listener has returned it ignores everything. */
  function Next(startTime: int, s: WatchState, e: Event): WatchState
  {
    if !s.listening then s
    else match e
      case Arrival(post, now, runningFile, transport) =>
        if Admit(startTime, post, now, runningFile) then AfterArrival(s, post, transport)
        else s.(safeToStop := true)
      case StreamError => AfterStreamError(s)
      case StreamEnd => s.(listening := false, safeToStop := true)
  }

  /** A run of events, oldest first. */
  function NextAll(startTime: int, s: WatchState, events: seq<Event>): WatchState
    decreases |events|
  {
    if events == [] then s
    else Next(startTime, NextAll(startTime, s, events[..|events| - 1]), events[|events| - 1])
  }

  /** Whether the event makes the listener save a checkpoint. */
  predicate WritesCheckpoint(startTime: int, s: WatchState, e: Event)
  {
    s.listening && e.Arrival? && Admit(startTime, e.post, e.now, e.runningFile)
  }

  // ---------------------------------------------------------------------
  // Properties of one event
  // ---------------------------------------------------------------------

  /**
   * What an arriving post does. It is admitted exactly when it leads to a
   * checkpoint write, and then the checkpoint is its own creation time. A
   * rejected post changes nothing but `safe_to_stop`. An admitted post
   * leaves the listener running, and is notified or stays unsent; a
   * complete pass empties the unsent set, resets the retry count and sends
   * no alert; a pass that raises removes nothing from the unsent set, even
   * what it sent, leaves the retry count alone and alerts the developer once.
   */
  lemma ArrivalRule(startTime: int, s: WatchState, post: Post, now: int, runningFile: bool, transport: Transport)
    requires s.listening
    ensures var t := Next(startTime, s, Arrival(post, now, runningFile, transport));
      && (|t.written| == |s.written| + 1 <==> Admit(startTime, post, now, runningFile))
      && (!Admit(startTime, post, now, runningFile) ==> t == s.(safeToStop := true))
      && (Admit(startTime, post, now, runningFile) ==>
            && t.written == s.written + [post.created]
            && t.listening
            && (post in t.unsent || post in t.dispatched[|s.dispatched|..])
            && (PassSucceeds(transport, |AddUnsent(s.unsent, post)|) ==>
                  && t.unsent == [] && t.retryCount == 0 && t.dispatched == s.dispatched + AddUnsent(s.unsent, post)
                  && t.alerts == s.alerts)
            && (!PassSucceeds(transport, |AddUnsent(s.unsent, post)|) ==>
                  && s.unsent <= t.unsent && post in t.unsent
                  && t.retryCount == s.retryCount
                  && s.dispatched <= t.dispatched
                  && t.alerts == s.alerts + [DispatchFailed]))
  {
    var t := Next(startTime, s, Arrival(post, now, runningFile, transport));
    if Admit(startTime, post, now, runningFile) {
      var pending := AddUnsent(s.unsent, post);
      assert post in pending;
      if PassSucceeds(transport, |pending|) {
        assert t.dispatched[|s.dispatched|..] == pending;
      }
    }
  }

  /**
   * Only a stream failure raises the retry count, and only the failure that
   * brings it to `MaxRetries` alerts that the retries are exhausted; a
   * complete dispatch pass resets it; nothing else touches it. The listener
   * stops only when the stream ends or the retries are exhausted; a failed
   * dispatch pass is caught inside the loop, alerts the developer, and is
   * the only event that sends `DispatchFailed`.
   */
  lemma RetryCountRule(startTime: int, s: WatchState, e: Event)
    requires s.listening
    ensures var t := Next(startTime, s, e);
      && (e.StreamError? ==> t.retryCount == s.retryCount + 1 && (t.listening <==> t.retryCount < MaxRetries))
      && (e.StreamError? ==> t.alerts == s.alerts + (if t.retryCount >= MaxRetries then [RetriesExhausted] else []))
      && (!t.listening <==> e.StreamEnd? || (e.StreamError? && t.retryCount >= MaxRetries))
      && (e.Arrival? ==>
            t.alerts == s.alerts +
              (if WritesCheckpoint(startTime, s, e) && !PassSucceeds(e.transport, |AddUnsent(s.unsent, e.post)|)
               then [DispatchFailed] else []))
      && (e.StreamEnd? ==> t.alerts == s.alerts)
      && (t.retryCount > s.retryCount ==> e.StreamError?)
      && (t.retryCount < s.retryCount ==> WritesCheckpoint(startTime, s, e) && t.unsent == [])
  {
  }

  // ---------------------------------------------------------------------
  // Invariants of a whole run
  // ---------------------------------------------------------------------

  /**
   * What holds between events: the unsent posts are distinct, every post
   * that is unsent or was notified and every checkpoint written is newer than
   * the start time, the retry count stays within its bound while listening,
   * and `safe_to_stop` is set.
   */
  ghost predicate Inv(startTime: int, s: WatchState)
  {
    && Distinct(s.unsent)
    && (forall i :: 0 <= i < |s.unsent| ==> s.unsent[i].created > startTime)
    && (forall i :: 0 <= i < |s.dispatched| ==> s.dispatched[i].created > startTime)
    && (forall i :: 0 <= i < |s.written| ==> s.written[i] > startTime)
    && s.retryCount <= MaxRetries
    && (s.listening ==> s.retryCount < MaxRetries)
    && s.safeToStop
  }

  lemma AddUnsentKeeps(startTime: int, unsent: seq<Post>, post: Post)
    requires Distinct(unsent)
    requires forall i :: 0 <= i < |unsent| ==> unsent[i].created > startTime
    requires post.created > startTime
    ensures Distinct(AddUnsent(unsent, post))
    ensures forall i :: 0 <= i < |AddUnsent(unsent, post)| ==> AddUnsent(unsent, post)[i].created > startTime
  {
    var pending := AddUnsent(unsent, post);
    if post !in unsent {
      forall i, j | 0 <= i < j < |pending|
        ensures pending[i] != pending[j]
      {
        if j == |unsent| {
          assert pending[i] == unsent[i];
        }
      }
    }
  }

  lemma NextKeepsInv(startTime: int, s: WatchState, e: Event)
    requires Inv(startTime, s)
    ensures Inv(startTime, Next(startTime, s, e))
  {
    if s.listening && e.Arrival? && Admit(startTime, e.post, e.now, e.runningFile) {
      AddUnsentKeeps(startTime, s.unsent, e.post);
      var pending := AddUnsent(s.unsent, e.post);
      var t := Next(startTime, s, e);
      if PassSucceeds(e.transport, |pending|) {
        assert t.dispatched == s.dispatched + pending;
      } else {
        assert t.dispatched == s.dispatched + pending[..e.transport.call];
      }
    }
  }

  lemma {:induction false} NextAllKeepsInv(startTime: int, s: WatchState, events: seq<Event>)
    requires Inv(startTime, s)
    ensures Inv(startTime, NextAll(startTime, s, events))
    decreases |events|
  {
    if events != [] {
      NextAllKeepsInv(startTime, s, events[..|events| - 1]);
      NextKeepsInv(startTime, NextAll(startTime, s, events[..|events| - 1]), events[|events| - 1]);
    }
  }

  /**
   * No post at or before the start time is ever notified and no checkpoint at
   * or before it is ever written. Started from a stored checkpoint, the
   * listener never notifies a post the checkpoint already covers; started
   * cold, it never notifies a post older than its own start.
   */
  lemma NoNotificationBeforeStart(stored: map<string, int>, feed: string, now: int, events: seq<Event>)
    ensures var bound := if feed in stored && stored[feed] != 0 then stored[feed] else now;
      var t := NextAll(StartTime(stored, feed, now), Initial(), events);
      && (forall i :: 0 <= i < |t.dispatched| ==> t.dispatched[i].created > bound)
      && (forall i :: 0 <= i < |t.written| ==> t.written[i] > bound)
      && (t.listening ==> t.retryCount < MaxRetries)
  {
    NextAllKeepsInv(StartTime(stored, feed, now), Initial(), events);
  }

  /** Nothing is lost: a post that is unsent stays unsent until a pass notifies it, and notifications are never taken back. */
  lemma UnsentUntilNotified(startTime: int, s: WatchState, e: Event)
    ensures var t := Next(startTime, s, e);
      && s.dispatched <= t.dispatched
      && forall p :: p in s.unsent ==> p in t.unsent || p in t.dispatched[|s.dispatched|..]
  {
    var t := Next(startTime, s, e);
    if s.listening && e.Arrival? && Admit(startTime, e.post, e.now, e.runningFile) {
      var pending := AddUnsent(s.unsent, e.post);
      if PassSucceeds(e.transport, |pending|) {
        assert t.dispatched[|s.dispatched|..] == pending;
      }
    }
  }

  lemma {:induction false} NothingLost(startTime: int, s: WatchState, events: seq<Event>)
    ensures var t := NextAll(startTime, s, events);
      && s.dispatched <= t.dispatched
      && forall p :: p in s.unsent ==> p in t.unsent || p in t.dispatched[|s.dispatched|..]
    decreases |events|
  {
    if events != [] {
      var mid := NextAll(startTime, s, events[..|events| - 1]);
      var t := NextAll(startTime, s, events);
      NothingLost(startTime, s, events[..|events| - 1]);
      UnsentUntilNotified(startTime, mid, events[|events| - 1]);
      forall p | p in s.unsent
        ensures p in t.unsent || p in t.dispatched[|s.dispatched|..]
      {
        if p !in mid.unsent {
          assert p in mid.dispatched[|s.dispatched|..];
          assert mid.dispatched[|s.dispatched|..] <= t.dispatched[|s.dispatched|..];
        } else if p !in t.unsent {
          assert p in t.dispatched[|mid.dispatched|..];
          assert t.dispatched[|mid.dispatched|..] == t.dispatched[|s.dispatched|..][|mid.dispatched| - |s.dispatched|..];
        }
      }
    }
  }

  /** A listener that has returned stays returned and ignores the rest of the stream. */
  lemma {:induction false} StoppedIgnoresRest(startTime: int, s: WatchState, events: seq<Event>, n: nat)
    requires n <= |events|
    requires !NextAll(startTime, s, events[..n]).listening
    ensures NextAll(startTime, s, events) == NextAll(startTime, s, events[..n])
    decreases |events| - n
  {
    if n < |events| {
      assert events[..n + 1][..n] == events[..n];
      StoppedIgnoresRest(startTime, s, events, n + 1);
    } else {
      assert events[..n] == events;
    }
  }

  /** `k` stream failures in a row. */
  function Errors(k: nat): seq<Event>
  {
    seq(k, _ => StreamError)
  }

  /**
   * Stream failures in a row count up the retries; the listener returns,
   * alerting the developer once, exactly when the count reaches `MaxRetries`,
   * and no alert goes out before. The unsent posts and the checkpoints
   * survive the retries.
   */
  lemma {:induction false} ConsecutiveErrors(startTime: int, s: WatchState, k: nat)
    requires s.listening && s.retryCount < MaxRetries
    ensures var t := NextAll(startTime, s, Errors(k));
      && t.retryCount == (if s.retryCount + k < MaxRetries then s.retryCount + k else MaxRetries)
      && (t.listening <==> s.retryCount + k < MaxRetries)
      && t.alerts == s.alerts + (if s.retryCount + k >= MaxRetries then [RetriesExhausted] else [])
      && (k > 0 ==> t.safeToStop)
      && t.unsent == s.unsent && t.dispatched == s.dispatched && t.written == s.written
  {
    if k > 0 {
      assert Errors(k)[..k - 1] == Errors(k - 1);
      ConsecutiveErrors(startTime, s, k - 1);
    }
  }

  // ---------------------------------------------------------------------
  // Behaviours of the source worth seeing on concrete runs
  // ---------------------------------------------------------------------

  /** Running one more event after a run. */
  lemma NextAllSnoc(startTime: int, s: WatchState, events: seq<Event>, e: Event)
    ensures NextAll(startTime, s, events + [e]) == Next(startTime, NextAll(startTime, s, events), e)
  {
    assert (events + [e])[..|events|] == events;
  }

  /**
   * A pass that fails after sending some unsent posts keeps them all, so the
   * next pass sends them again: here post a goes out twice.
   */
  lemma ResendAfterPartialFailure()
    ensures var a, b, c := Post("a", 100), Post("b", 110), Post("c", 120);
      var events := [Arrival(a, 200, true, FailsOnCall(0)),
                     Arrival(b, 210, true, FailsOnCall(1)),
                     Arrival(c, 220, true, Healthy)];
      var t := NextAll(50, Initial(), events);
      t.dispatched == [a, a, b, c] && t.unsent == [] && t.written == [100, 110, 120]
  {
    var a, b, c := Post("a", 100), Post("b", 110), Post("c", 120);
    var e1, e2, e3 := Arrival(a, 200, true, FailsOnCall(0)), Arrival(b, 210, true, FailsOnCall(1)), Arrival(c, 220, true, Healthy);
    var s0 := Initial();
    NextAllSnoc(50, s0, [], e1);
    assert [] + [e1] == [e1];
    var s1 := Next(50, s0, e1);
    assert s1.unsent == [a] && s1.dispatched == [] && s1.written == [100];
    NextAllSnoc(50, s0, [e1], e2);
    assert [e1] + [e2] == [e1, e2];
    var s2 := Next(50, s1, e2);
    assert b != a;
    assert AddUnsent(s1.unsent, b) == [a, b];
    assert s2.unsent == [a, b] && s2.dispatched == [a] && s2.written == [100, 110];
    NextAllSnoc(50, s0, [e1, e2], e3);
    assert [e1, e2] + [e3] == [e1, e2, e3];
    var s3 := Next(50, s2, e3);
    assert c != a && c != b;
    assert AddUnsent(s2.unsent, c) == [a, b, c];
    assert s3.dispatched == [a, a, b, c] && s3.unsent == [] && s3.written == [100, 110, 120];
  }

  /**
   * The start time is not moved forward on a retry, so a post the new stream
   * yields again is admitted and notified again.
   */
  lemma ReplayAfterStreamError()
    ensures var a := Post("a", 100);
      var events := [Arrival(a, 200, true, Healthy), StreamError, Arrival(a, 260, true, Healthy)];
      NextAll(50, Initial(), events).dispatched == [a, a]
  {
    var a := Post("a", 100);
    var e1, e2, e3 := Arrival(a, 200, true, Healthy), StreamError, Arrival(a, 260, true, Healthy);
    var s0 := Initial();
    NextAllSnoc(50, s0, [], e1);
    assert [] + [e1] == [e1];
    var s1 := Next(50, s0, e1);
    assert s1.dispatched == [a] && s1.unsent == [] && s1.listening;
    NextAllSnoc(50, s0, [e1], e2);
    assert [e1] + [e2] == [e1, e2];
    var s2 := Next(50, s1, e2);
    assert s2.dispatched == [a] && s2.unsent == [] && s2.listening;
    NextAllSnoc(50, s0, [e1, e2], e3);
    assert [e1, e2] + [e3] == [e1, e2, e3];
  }

  /** The checkpoint follows the order of the stream, so an older post seen later moves it back. */
  lemma CheckpointFollowsArrivalOrder()
    ensures var events := [Arrival(Post("x", 300), 400, true, Healthy), Arrival(Post("y", 250), 410, true, Healthy)];
      NextAll(50, Initial(), events).written == [300, 250]
  {
    var e1, e2 := Arrival(Post("x", 300), 400, true, Healthy), Arrival(Post("y", 250), 410, true, Healthy);
    var s0 := Initial();
    NextAllSnoc(50, s0, [], e1);
    assert [] + [e1] == [e1];
    assert Next(50, s0, e1).written == [300] && Next(50, s0, e1).listening;
    NextAllSnoc(50, s0, [e1], e2);
    assert [e1] + [e2] == [e1, e2];
  }

  lemma WithoutAbsent(posts: seq<Post>, x: Post)
    requires x !in posts
    ensures Without(posts, x) == posts
  {
    if posts != [] {
      WithoutAbsent(posts[1..], x);
    }
  }

  lemma WithoutFirst(posts: seq<Post>)
    requires |posts| > 0 && Distinct(posts)
    ensures Without(posts, posts[0]) == posts[1..]
  {
    assert posts[0] !in posts[1..];
    WithoutAbsent(posts[1..], posts[0]);
  }

  /** Two maps agree on every key but `feed`. */
  ghost predicate OthersUnchanged(before: map<string, int>, after: map<string, int>, feed: string)
  {
    forall f :: f != feed ==> (f in after <==> f in before) && (f in after ==> after[f] == before[f])
  }

  /** The checkpoints a listener has left in the store since it had written `from` values: other feeds untouched, its own at the last value it wrote. */
  ghost predicate Tracks(before: map<string, int>, after: map<string, int>, feed: string, saved: seq<int>, from: nat)
  {
    && OthersUnchanged(before, after, feed)
    && (|saved| <= from ==> after == before)
    && (|saved| > from ==> feed in after && after[feed] == saved[|saved| - 1])
  }

  /**
   * The store a listener has left since it had written `from` values: the
   * checkpoints as `Tracks` says; once it wrote, the key order `inserted`
   * (the old one with its feed inserted) and the file rewritten from the
   * dictionary; until then key order and file as they were.
   */
  ghost predicate StoreTracks(store: CheckpointStore, times: map<string, int>, names: seq<string>, file: Option<string>,
                              inserted: seq<string>, feed: string, saved: seq<int>, from: nat)
    reads store
  {
    && store.Valid()
    && Tracks(times, store.times, feed, saved, from)
    && (|saved| > from ==>
          && store.names == inserted
          && store.file == Some(Serialize(store.names, store.times)))
    && (|saved| <= from ==> store.names == names && store.file == file)
  }

  lemma TracksWrite(before: map<string, int>, after: map<string, int>, feed: string, saved: seq<int>, from: nat, value: int)
    requires Tracks(before, after, feed, saved, from) && from <= |saved|
    ensures Tracks(before, after[feed := value], feed, saved + [value], from)
  {
  }

  /** A checkpoint write keeps `StoreTracks`, with the written value recorded. */
  lemma StoreTracksWrite(store: CheckpointStore, times: map<string, int>, names: seq<string>, file: Option<string>,
                         inserted: seq<string>, feed: string, saved: seq<int>, from: nat,
                         timesBefore: map<string, int>, namesBefore: seq<string>, value: int)
    requires from <= |saved| && store.Valid()
    requires Tracks(times, timesBefore, feed, saved, from)
    requires inserted == Insert(names, feed)
    requires |saved| > from ==> namesBefore == inserted
    requires |saved| <= from ==> namesBefore == names
    requires store.times == timesBefore[feed := value] && store.names == Insert(namesBefore, feed)
    requires store.file == Some(Serialize(store.names, store.times))
    ensures StoreTracks(store, times, names, file, inserted, feed, saved + [value], from)
  {
    TracksWrite(times, timesBefore, feed, saved, from, value);
  }

  /** An event that writes nothing keeps `StoreTracks`. */
  lemma StoreTracksKeep(store: CheckpointStore, times: map<string, int>, names: seq<string>, file: Option<string>,
                        inserted: seq<string>, feed: string, saved: seq<int>, from: nat,
                        timesBefore: map<string, int>, namesBefore: seq<string>, fileBefore: Option<string>)
    requires from <= |saved| && store.Valid()
    requires Tracks(times, timesBefore, feed, saved, from)
    requires |saved| > from ==> namesBefore == inserted
    requires |saved| > from ==> fileBefore == Some(Serialize(namesBefore, timesBefore))
    requires |saved| <= from ==> namesBefore == names && fileBefore == file
    requires store.times == timesBefore && store.names == namesBefore && store.file == fileBefore
    ensures StoreTracks(store, times, names, file, inserted, feed, saved, from)
  {
  }

  /**
   * One listener thread. Its fields are the listener's locals (`start_time`,
   * `unsent_submissions`, `retry_count`, whether its loop still runs) and the
   * thread's `safe_to_stop` flag; the notifications, alerts and checkpoint
   * values it produced are recorded in ghost fields.
   */
  class FeedWatcher {
    const feed: string
    const startTime: int
    var unsent: seq<Post>
    var retryCount: nat
    var listening: bool
    var safeToStop: bool
    ghost var dispatched: seq<Post>
    ghost var alerts: seq<Alert>
    ghost var written: seq<int>

    ghost function State(): WatchState
      reads this
    {
      WatchState(unsent, retryCount, listening, safeToStop, dispatched, alerts, written)
    }

    ghost predicate Valid()
      reads this
    {
      Inv(startTime, State())
    }

    /** The start of `listenForPosts`: the start time and empty locals. */
    constructor (feed: string, store: CheckpointStore, now: int)
      ensures this.feed == feed && startTime == StartTime(store.times, feed, now)
      ensures State() == Initial() && Valid()
    {
      this.feed := feed;
      var saved := store.Get(feed);
      startTime := if saved == 0 then now else saved;
      unsent := [];
      retryCount := 0;
      listening := true;
      safeToStop := true;
      dispatched := [];
      alerts := [];
      written := [];
    }

    /**
     * The `for unsent_submission in unsent_submissions` pass and the removal
     * of what it sent. A call that raises ends the pass before anything is
     * removed.
     */
    method DispatchPass(transport: Transport) returns (ok: bool)
      requires Distinct(unsent)
      modifies this`unsent, this`dispatched
      ensures ok == PassSucceeds(transport, |old(unsent)|)
      ensures ok ==> unsent == [] && dispatched == old(dispatched) + old(unsent)
      ensures !ok ==> unsent == old(unsent) && dispatched == old(dispatched) + old(unsent)[..transport.call]
    {
      var sent: seq<Post> := [];
      var i := 0;
      ok := true;
      while i < |unsent| && ok
        invariant 0 <= i <= |unsent|
        invariant unsent == old(unsent)
        invariant sent == unsent[..i]
        invariant dispatched == old(dispatched) + sent
        invariant ok ==> PassSucceeds(transport, i)
        invariant !ok ==> transport == FailsOnCall(i) && i < |unsent|
        decreases |unsent| - i, ok
      {
        if transport == FailsOnCall(i) {
          ok := false;
        } else {
          dispatched := dispatched + [unsent[i]];
          sent := sent + [unsent[i]];
          i := i + 1;
        }
      }
      if ok {
        assert sent == old(unsent);
        var j := 0;
        while j < |sent|
          invariant 0 <= j <= |sent|
          invariant unsent == sent[j..]
          invariant dispatched == old(dispatched) + sent
        {
          WithoutFirst(sent[j..]);
          unsent := Without(unsent, sent[j]);
          j := j + 1;
        }
      }
    }

    /** The body of the stream loop for an admitted post. */
    method Deliver(post: Post, transport: Transport, store: CheckpointStore)
      requires Distinct(unsent) && store.Valid()
      modifies this`unsent, this`dispatched, this`retryCount, this`alerts, this`written, this`safeToStop, store
      ensures store.Valid()
      ensures State() == AfterArrival(old(State()), post, transport)
      ensures store.times == old(store.times)[feed := post.created]
      ensures store.names == Insert(old(store.names), feed)
      ensures store.file == Some(Serialize(store.names, store.times))
    {
      ghost var before := State();
      unsent := AddUnsent(unsent, post);
      safeToStop := false;
      var ok := DispatchPass(transport);
      if ok {
        retryCount := 0;
      } else {
        alerts := alerts + [DispatchFailed];
      }
      written := written + [post.created];
      ghost var notified := State().(safeToStop := true);
      assert notified == AfterArrival(before, post, transport);
      store.Write(feed, post.created);
      safeToStop := true;
      assert State() == notified;
    }

    /** The stream's `except` branch. */
    method Retry()
      modifies this`retryCount, this`alerts, this`safeToStop, this`listening
      ensures State() == AfterStreamError(old(State()))
    {
      retryCount := retryCount + 1;
      if retryCount >= MaxRetries {
        alerts := alerts + [RetriesExhausted];
      }
      safeToStop := true;
      listening := retryCount < MaxRetries;
    }

    /** One event of the stream, handled as the loop body and the stream's `except` branch do. */
    method HandleEvent(e: Event, store: CheckpointStore)
      requires Valid() && store.Valid()
      modifies this, store
      ensures Valid() && store.Valid()
      ensures State() == Next(startTime, old(State()), e)
      ensures WritesCheckpoint(startTime, old(State()), e) ==>
        && written == old(written) + [e.post.created]
        && store.times == old(store.times)[feed := e.post.created]
        && store.names == Insert(old(store.names), feed)
        && store.file == Some(Serialize(store.names, store.times))
      ensures !WritesCheckpoint(startTime, old(State()), e) ==>
        && written == old(written)
        && store.times == old(store.times) && store.names == old(store.names) && store.file == old(store.file)
    {
      NextKeepsInv(startTime, State(), e);
      if !listening {
        return;
      }
      match e {
        case Arrival(post, now, runningFile, transport) =>
          if Admit(startTime, post, now, runningFile) {
            Deliver(post, transport, store);
          } else {
            safeToStop := true;
          }
        case StreamError =>
          Retry();
        case StreamEnd =>
          listening := false;
          safeToStop := true;
      }
    }

    /** One turn of the listener's loop: `HandleEvent`, with the store tracked since the listener started. */
    method Step(e: Event, store: CheckpointStore, ghost times: map<string, int>, ghost names: seq<string>,
                ghost file: Option<string>, ghost inserted: seq<string>, ghost from: nat)
      requires Valid() && from <= |written| && inserted == Insert(names, feed)
      requires StoreTracks(store, times, names, file, inserted, feed, written, from)
      modifies this, store
      ensures Valid() && State() == Next(startTime, old(State()), e)
      ensures from <= |written|
      ensures StoreTracks(store, times, names, file, inserted, feed, written, from)
    {
      ghost var writes := WritesCheckpoint(startTime, State(), e);
      ghost var saved := written;
      ghost var timesBefore := store.times;
      ghost var namesBefore := store.names;
      ghost var fileBefore := store.file;
      HandleEvent(e, store);
      if !writes {
        StoreTracksKeep(store, times, names, file, inserted, feed, saved, from, timesBefore, namesBefore, fileBefore);
      } else {
        StoreTracksWrite(store, times, names, file, inserted, feed, saved, from, timesBefore, namesBefore, e.post.created);
      }
    }

    /**
     * `listenForPosts` from its start time on: handles events until the
     * listener returns or the events run out. Only this feed's checkpoint
     * changes, and it ends at the last value written; once something was
     * written, the feed has its place in the key order (last, if it was new)
     * and the file holds the whole dictionary in that order, and until then
     * neither the file nor the key order changes.
     */
    method Listen(events: seq<Event>, store: CheckpointStore)
      requires Valid() && store.Valid()
      modifies this, store
      ensures Valid() && store.Valid()
      ensures State() == NextAll(startTime, old(State()), events)
      ensures |old(written)| <= |written|
      ensures Tracks(old(store.times), store.times, feed, written, |old(written)|)
      ensures |written| > |old(written)| ==> store.names == Insert(old(store.names), feed)
      ensures |written| > |old(written)| ==> store.file == Some(Serialize(store.names, store.times))
      ensures |written| == |old(written)| ==> store.file == old(store.file) && store.names == old(store.names)
    {
      ghost var inserted := Insert(store.names, feed);
      var i := 0;
      while i < |events| && listening
        invariant 0 <= i <= |events|
        invariant Valid()
        invariant State() == NextAll(startTime, old(State()), events[..i])
        invariant |old(written)| <= |written|
        invariant StoreTracks(store, old(store.times), old(store.names), old(store.file), inserted, feed, written, |old(written)|)
      {
        assert events[..i + 1] == events[..i] + [events[i]];
        NextAllSnoc(startTime, old(State()), events[..i], events[i]);
        Step(events[i], store, old(store.times), old(store.names), old(store.file), inserted, |old(written)|);
        i := i + 1;
      }
      if i < |events| {
        StoppedIgnoresRest(startTime, old(State()), events, i);
      } else {
        assert events[..i] == events;
      }
    }
  }
}
