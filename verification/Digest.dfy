/**
 Which items a digest lists. Every writer takes the database's one write lock before
 it reads the clock for a stamp; a digest reads the tables under the same lock and
 compares stamps with its window as text.
 */
module Digest {
  import opened Text
  import opened Wrappers
  import opened Clock
  import opened Runs

  /** A post or a mention, by the stamp the digest selects it on. */
  datatype Item = Item(id: string, stamp: Time)

  /** What a digest read and what it listed. */
  datatype Listing = Listing(dayStart: Time, window: Time, seen: map<string, Run>, items: set<Item>)

  /** `newItems` and `newRuns` are the lock holder's writes, not yet committed. */
  datatype World = World(
    clock: Time, lock: Option<nat>, newItems: set<Item>, newRuns: map<string, Run>,
    items: set<Item>, runs: map<string, Run>, listings: map<string, Listing>)

  const START := World(FIRST, None, {}, map[], {}, map[], map[])

  datatype Action =
    | Wait(micros: nat)
    | Begin(pid: nat)
    | PutItem(pid: nat, id: string)
    | StartRun(pid: nat, id: string, job: string)
    | Collect(pid: nat, id: string, dayStart: Time, window: Time)
    | FinishRun(pid: nat, id: string, status: RunStatus, stats: Stats, error: Option<string>)
    | Commit(pid: nat)
    | Rollback(pid: nat)

  // ----- The window -----

  /** A digest that has ended and started before the day: a row the query for the last digest may return. */
  ghost predicate Eligible(r: Run, dayStart: Time) {
    r.job == "digest" && r.status != Running && Less(StampOf(r.startedAt), CutoffOf(dayStart))
  }

  /** The start of the last such digest, or one day before the day when there is none. */
  ghost predicate IsWindow(runs: map<string, Run>, dayStart: Time, window: Time) {
    || (&& (exists k :: k in runs && Eligible(runs[k], dayStart) && runs[k].startedAt == window)
        && forall k <- runs :: Eligible(runs[k], dayStart) ==> runs[k].startedAt <= window)
    || ((forall k <- runs :: !Eligible(runs[k], dayStart)) && window == dayStart - DAY)
  }

  ghost predicate InWindow(x: Item, window: Time) {
    !Less(StampOf(x.stamp), CutoffOf(window))
  }

  /** Both text comparisons compare instants. */
  lemma WindowByInstants(r: Run, x: Item, dayStart: Time, window: Time)
    ensures Eligible(r, dayStart) <==> r.job == "digest" && r.status != Running && r.startedAt < dayStart
    ensures InWindow(x, window) <==> window <= x.stamp
  {
    CutoffOfOrder(r.startedAt, dayStart);
    CutoffOfOrder(x.stamp, window);
  }

  // ----- Steps -----

  predicate Holds(w: World, pid: nat) {
    w.lock == Some(pid)
  }

  /** The moment just read from the clock is past once it is written down. */
  predicate CanStamp(w: World) {
    w.clock + 1 < END
  }

  /** A digest collects once, for any date. */
  ghost predicate CanCollect(w: World, id: string, dayStart: Time, window: Time) {
    && id in w.runs && id !in w.listings && w.runs[id].job == "digest" && w.runs[id].status == Running
    && w.newItems == {} && w.newRuns == map[]
    && IsWindow(w.runs, dayStart, window)
  }

  ghost function Next(w: World, a: Action): World {
    match a
    case Wait(us) => if w.clock + us < END then w.(clock := w.clock + us) else w
    case Begin(pid) => if w.lock.None? then w.(lock := Some(pid)) else w
    case PutItem(pid, id) =>
      if Holds(w, pid) && CanStamp(w) then w.(newItems := w.newItems + {Item(id, w.clock)}, clock := w.clock + 1) else w
    case StartRun(pid, id, job) =>
      if Holds(w, pid) && CanStamp(w) && id !in w.runs && id !in w.newRuns then
        w.(newRuns := w.newRuns[id := NewRun(job, w.clock)], clock := w.clock + 1)
      else w
    case Collect(pid, id, dayStart, window) =>
      if Holds(w, pid) && CanCollect(w, id, dayStart, window) then
        w.(listings := w.listings[id := Listing(dayStart, window, w.runs, set x | x in w.items && InWindow(x, window))])
      else w
    case FinishRun(pid, id, status, stats, error) =>
      if Holds(w, pid) && id in w.runs && status != Running then
        w.(newRuns := w.newRuns[id := Closed(w.runs[id], w.clock, status, stats, error)])
      else w
    case Commit(pid) =>
      if Holds(w, pid) then
        w.(lock := None, items := w.items + w.newItems, runs := w.runs + w.newRuns, newItems := {}, newRuns := map[])
      else w
    case Rollback(pid) => if Holds(w, pid) then w.(lock := None, newItems := {}, newRuns := map[]) else w
  }

  ghost function RunAll(actions: seq<Action>): World {
    if actions == [] then START else Next(RunAll(actions[..|actions| - 1]), actions[|actions| - 1])
  }

  // ----- What every run keeps -----

  predicate SameRun(r: Run, s: Run) {
    r.job == s.job && r.startedAt == s.startedAt
  }

  ghost predicate LaterThanAll(w: World, t: Time) {
    (forall x <- w.items :: x.stamp < t) && forall k <- w.runs :: w.runs[k].startedAt < t
  }

  /** Stamps are past, and whatever the lock holder has written is later than all that is committed. */
  ghost predicate Ordered(w: World) {
    && (w.lock.None? ==> w.newItems == {} && w.newRuns == map[])
    && (forall x <- w.items :: x.stamp < w.clock)
    && (forall k <- w.runs :: w.runs[k].startedAt < w.clock)
    && (forall x <- w.newItems :: x.stamp < w.clock && LaterThanAll(w, x.stamp))
    && (forall k <- w.newRuns ::
          if k in w.runs then SameRun(w.newRuns[k], w.runs[k])
          else w.newRuns[k].startedAt < w.clock && LaterThanAll(w, w.newRuns[k].startedAt))
  }

  /** A listing still answers for every committed item older than its digest. */
  ghost predicate Complete(w: World, k: string)
    requires k in w.listings
  {
    var l := w.listings[k];
    && k in w.runs && w.runs[k].job == "digest"
    && IsWindow(l.seen, l.dayStart, l.window)
    && (forall j <- l.seen :: j in w.runs && SameRun(l.seen[j], w.runs[j]))
    && l.items <= w.items
    && forall x <- w.items :: x.stamp < w.runs[k].startedAt ==> (x in l.items <==> l.window <= x.stamp)
  }

  ghost predicate Sound(w: World) {
    Ordered(w) && forall k <- w.listings :: Complete(w, k)
  }

  lemma CollectComplete(w: World, pid: nat, id: string, dayStart: Time, window: Time)
    requires Sound(w) && Holds(w, pid) && CanCollect(w, id, dayStart, window)
    ensures Sound(Next(w, Collect(pid, id, dayStart, window)))
  {
    hide IsWindow;
    forall x: Item ensures InWindow(x, window) <==> window <= x.stamp {
      WindowByInstants(w.runs[id], x, dayStart, window);
    }
  }

  lemma CommitOrdered(w: World, pid: nat)
    requires Ordered(w) && Holds(w, pid)
    ensures Ordered(Next(w, Commit(pid)))
  {
  }

  lemma CommitComplete(w: World, v: World, k: string)
    requires Ordered(w) && k in w.listings && Complete(w, k)
    requires v.listings == w.listings && v.items == w.items + w.newItems && v.runs == w.runs + w.newRuns
    ensures Complete(v, k)
  {
    hide IsWindow;
    assert forall j :: j in w.runs ==> j in v.runs && SameRun(w.runs[j], v.runs[j]);
  }

  lemma RunOrdered(w: World, a: Action)
    requires Ordered(w) && (a.StartRun? || a.FinishRun?)
    ensures Ordered(Next(w, a))
  {
    hide IsWindow, InWindow;
  }

  lemma ItemOrdered(w: World, a: Action)
    requires Ordered(w) && a.PutItem?
    ensures Ordered(Next(w, a))
  {
    hide IsWindow, InWindow;
  }

  lemma WriteOrdered(w: World, a: Action)
    requires Ordered(w) && !a.Collect? && !a.Commit?
    ensures Ordered(Next(w, a))
  {
    hide IsWindow, InWindow;
    match a
    case StartRun(_, _, _) => RunOrdered(w, a);
    case FinishRun(_, _, _, _, _) => RunOrdered(w, a);
    case PutItem(_, _) => ItemOrdered(w, a);
    case _ =>
  }

  lemma SameComplete(w: World, v: World, k: string)
    requires k in w.listings && Complete(w, k) && v.items == w.items && v.runs == w.runs && v.listings == w.listings
    ensures Complete(v, k)
  {
    hide IsWindow;
  }

  lemma NextSound(w: World, a: Action)
    requires Sound(w)
    ensures Sound(Next(w, a))
  {
    hide Ordered, Complete;
    match a
    case Collect(pid, id, dayStart, window) =>
      if Holds(w, pid) && CanCollect(w, id, dayStart, window) {
        CollectComplete(w, pid, id, dayStart, window);
      }
    case Commit(pid) =>
      if Holds(w, pid) {
        CommitOrdered(w, pid);
        forall k | k in w.listings ensures Complete(Next(w, a), k) {
          CommitComplete(w, Next(w, a), k);
        }
      }
    case _ =>
      WriteOrdered(w, a);
      forall k | k in w.listings ensures Complete(Next(w, a), k) {
        SameComplete(w, Next(w, a), k);
      }
  }

  lemma StartSound()
    ensures Sound(START)
  {
  }

  lemma {:induction false} RunSound(actions: seq<Action>)
    ensures Sound(RunAll(actions))
  {
    hide Next, Sound;
    if actions == [] {
      StartSound();
    } else {
      RunSound(actions[..|actions| - 1]);
      NextSound(RunAll(actions[..|actions| - 1]), actions[|actions| - 1]);
    }
  }

  // ----- No hole between digests -----

  /** A digest that had ended, well or badly, and started before the day. */
  predicate Ended(r: Run, dayStart: Time) {
    r.job == "digest" && r.status != Running && r.startedAt < dayStart
  }

  predicate SomeEnded(l: Listing) {
    exists j :: j in l.seen && Ended(l.seen[j], l.dayStart)
  }

  /** No digest that had ended started after the item; without any, the item is at most a day older than the day. */
  predicate Reaches(l: Listing, x: Item) {
    if SomeEnded(l) then forall j <- l.seen :: Ended(l.seen[j], l.dayStart) ==> l.seen[j].startedAt <= x.stamp
    else l.dayStart - DAY <= x.stamp
  }

  lemma WindowReaches(l: Listing, x: Item)
    requires IsWindow(l.seen, l.dayStart, l.window)
    ensures l.window <= x.stamp <==> Reaches(l, x)
  {
    hide Eligible;
    forall j | j in l.seen ensures Eligible(l.seen[j], l.dayStart) <==> Ended(l.seen[j], l.dayStart) {
      WindowByInstants(l.seen[j], x, l.dayStart, l.window);
    }
  }

  lemma CompleteReaches(w: World, k: string, x: Item)
    requires k in w.listings && Complete(w, k) && x in w.items && x.stamp < w.runs[k].startedAt
    ensures x in w.listings[k].items <==> Reaches(w.listings[k], x)
    ensures w.listings[k].items <= w.items
  {
    hide IsWindow, Reaches;
    WindowReaches(w.listings[k], x);
  }

  /**
   What a digest lists of the items older than itself, whatever ran, crashed or
   overlapped in between: exactly those that no ended digest of an earlier day started
   after, or, where none had ended, those no older than the day before. It lists
   nothing that is not committed.
   */
  lemma ListingExact(actions: seq<Action>, k: string, x: Item)
    requires var w := RunAll(actions);
      k in w.listings && k in w.runs && x in w.items && x.stamp < w.runs[k].startedAt
    ensures x in RunAll(actions).listings[k].items <==> Reaches(RunAll(actions).listings[k], x)
    ensures RunAll(actions).listings[k].items <= RunAll(actions).items
  {
    hide Next, Ordered, Complete, Reaches;
    RunSound(actions);
    assert Complete(RunAll(actions), k);
    CompleteReaches(RunAll(actions), k, x);
  }

  /** No digest started after the item and before this one. */
  predicate NextDigest(w: World, x: Item, k: string)
    requires k in w.runs
  {
    && x.stamp < w.runs[k].startedAt
    && forall j <- w.runs :: w.runs[j].job == "digest" ==> !(x.stamp < w.runs[j].startedAt < w.runs[k].startedAt)
  }

  lemma NextReaches(w: World, k: string, x: Item)
    requires k in w.listings && Complete(w, k) && NextDigest(w, x, k)
    requires w.listings[k].dayStart <= w.runs[k].startedAt
    ensures var l := w.listings[k]; Reaches(l, x) <==> SomeEnded(l) || l.dayStart - DAY <= x.stamp
  {
    hide IsWindow;
  }

  /**
   The first digest to start after an item was stamped, for a day that had begun, lists it
   exactly when some digest of an earlier day had ended by then, or the item is no older
   than the day before.
   */
  lemma NextDigestExact(actions: seq<Action>, x: Item, k: string)
    requires var w := RunAll(actions);
      && x in w.items && k in w.listings && k in w.runs && NextDigest(w, x, k)
      && w.listings[k].dayStart <= w.runs[k].startedAt
    ensures var l := RunAll(actions).listings[k]; x in l.items <==> SomeEnded(l) || l.dayStart - DAY <= x.stamp
  {
    hide Next, Ordered, Complete, Reaches;
    RunSound(actions);
    assert Complete(RunAll(actions), k);
    NextReaches(RunAll(actions), k, x);
    CompleteReaches(RunAll(actions), k, x);
  }

  /** Some digest no younger than the item had ended when this one read the runs, or began on this one's day. */
  predicate Preceded(l: Listing, x: Item) {
    exists j :: j in l.seen && l.seen[j].job == "digest" && l.seen[j].startedAt <= x.stamp
                && (l.seen[j].status != Running || l.dayStart <= l.seen[j].startedAt)
  }

  /** So once digests run and end, no item falls between two of them. */
  lemma NoHole(actions: seq<Action>, x: Item, k: string)
    requires var w := RunAll(actions);
      && x in w.items && k in w.listings && k in w.runs && NextDigest(w, x, k) && Preceded(w.listings[k], x)
      && w.listings[k].dayStart <= w.runs[k].startedAt
    ensures x in RunAll(actions).listings[k].items
  {
    hide Next, RunAll;
    NextDigestExact(actions, x, k);
    var l := RunAll(actions).listings[k];
    var j :| j in l.seen && l.seen[j].job == "digest" && l.seen[j].startedAt <= x.stamp
             && (l.seen[j].status != Running || l.dayStart <= l.seen[j].startedAt);
    assert l.seen[j].startedAt < l.dayStart ==> Ended(l.seen[j], l.dayStart);
  }

  // ----- What the theorem leaves out -----

  lemma Then(actions: seq<Action>, a: Action)
    ensures RunAll(actions + [a]) == Next(RunAll(actions), a)
  {
    assert (actions + [a])[..|actions|] == actions;
  }

  predicate Idle(w: World) {
    w.lock.None? && w.newItems == {} && w.newRuns == map[]
  }

  /** A digest writes its run row, commits it, and takes the lock again to collect. */
  lemma Opens(before: seq<Action>, u: World, pid: nat, id: string) returns (actions: seq<Action>, w: World)
    requires u == RunAll(before) && Idle(u) && CanStamp(u) && id !in u.runs
    ensures w == RunAll(actions)
    ensures w == u.(lock := Some(pid), clock := u.clock + 1, runs := u.runs[id := NewRun("digest", u.clock)])
  {
    actions, w := before, u;
    Then(actions, Begin(pid));
    actions, w := actions + [Begin(pid)], Next(w, Begin(pid));
    Then(actions, StartRun(pid, id, "digest"));
    actions, w := actions + [StartRun(pid, id, "digest")], Next(w, StartRun(pid, id, "digest"));
    Then(actions, Commit(pid));
    actions, w := actions + [Commit(pid)], Next(w, Commit(pid));
    Then(actions, Begin(pid));
    actions, w := actions + [Begin(pid)], Next(w, Begin(pid));
    assert u.runs + map[id := NewRun("digest", u.clock)] == w.runs;
  }

  /** A digest that already has its row ends. */
  lemma Ends(before: seq<Action>, u: World, pid: nat, id: string, status: RunStatus) returns (actions: seq<Action>,
             w: World)
    requires u == RunAll(before) && Holds(u, pid) && u.newItems == {} && u.newRuns == map[]
    requires id in u.runs && status != Running
    ensures w == RunAll(actions)
    ensures w == u.(lock := None, runs := u.runs[id := Closed(u.runs[id], u.clock, status, map[], None)])
  {
    actions, w := before, u;
    Then(actions, FinishRun(pid, id, status, map[], None));
    actions, w := actions + [FinishRun(pid, id, status, map[], None)], Next(w, FinishRun(pid, id, status, map[], None));
    Then(actions, Commit(pid));
    actions, w := actions + [Commit(pid)], Next(w, Commit(pid));
  }

  /** One item, in a transaction of its own. */
  lemma Puts(before: seq<Action>, u: World, pid: nat, id: string) returns (actions: seq<Action>, w: World)
    requires u == RunAll(before) && Idle(u) && CanStamp(u)
    ensures w == RunAll(actions) && w == u.(clock := u.clock + 1, items := u.items + {Item(id, u.clock)})
  {
    actions, w := before, u;
    Then(actions, Begin(pid));
    actions, w := actions + [Begin(pid)], Next(w, Begin(pid));
    Then(actions, PutItem(pid, id));
    actions, w := actions + [PutItem(pid, id)], Next(w, PutItem(pid, id));
    Then(actions, Commit(pid));
    actions, w := actions + [Commit(pid)], Next(w, Commit(pid));
    assert u.runs + map[] == u.runs;
  }

  /** Any time passes. */
  lemma Waits(before: seq<Action>, u: World, micros: nat) returns (actions: seq<Action>, w: World)
    requires u == RunAll(before) && u.clock + micros < END
    ensures w == RunAll(actions) && w == u.(clock := u.clock + micros)
  {
    actions, w := before + [Wait(micros)], Next(u, Wait(micros));
    Then(before, Wait(micros));
  }

  /** The lock holder lets go without having written. */
  lemma Drops(before: seq<Action>, u: World, pid: nat) returns (actions: seq<Action>, w: World)
    requires u == RunAll(before) && Holds(u, pid) && u.newItems == {} && u.newRuns == map[]
    ensures w == RunAll(actions) && w == u.(lock := None)
  {
    actions, w := before + [Rollback(pid)], Next(u, Rollback(pid));
    Then(before, Rollback(pid));
  }

  lemma Collects(before: seq<Action>, u: World, pid: nat, id: string, dayStart: Time, window: Time)
    returns (actions: seq<Action>, w: World)
    requires u == RunAll(before) && Holds(u, pid) && CanCollect(u, id, dayStart, window)
    ensures w == RunAll(actions)
    ensures var items := set x | x in u.items && InWindow(x, window);
      w == u.(listings := u.listings[id := Listing(dayStart, window, u.runs, items)])
  {
    var collect := Collect(pid, id, dayStart, window);
    actions, w := before + [collect], Next(u, collect);
    Then(before, collect);
  }

  lemma NoneEligible(runs: map<string, Run>, dayStart: Time)
    requires dayStart - DAY >= FIRST && forall k <- runs :: runs[k].status == Running
    ensures IsWindow(runs, dayStart, dayStart - DAY)
  {
  }

  lemma LastEligible(runs: map<string, Run>, dayStart: Time, last: string)
    requires last in runs && runs[last].job == "digest" && runs[last].status != Running
    requires runs[last].startedAt < dayStart
    requires forall k <- runs :: runs[k].status != Running ==> runs[k].startedAt <= runs[last].startedAt
    ensures IsWindow(runs, dayStart, runs[last].startedAt)
  {
    CutoffOfOrder(runs[last].startedAt, dayStart);
    assert Eligible(runs[last], dayStart);
  }

  lemma Empty()
    ensures RunAll([]) == START
  {
  }

  /** Without an older digest that ended, the next digest of a later day starts its window too late. */
  lemma CrashedDigestHides() returns (actions: seq<Action>, x: Item, k: string)
    ensures var w := RunAll(actions);
      && x in w.items && k in w.listings && k in w.runs && NextDigest(w, x, k)
      && x !in w.listings[k].items
      && exists j :: j in w.runs && w.runs[j].job == "digest" && w.runs[j].startedAt < x.stamp
  {
    hide Next, RunAll, IsWindow, InWindow;
    var w := START;
    assert RunAll([]) == START by { Empty(); }
    actions, w := Opens([], START, 0, "d0");
    actions, w := Drops(actions, w, 0);
    actions, w := Puts(actions, w, 1, "x");
    actions, w := Waits(actions, w, 3 * DAY);
    actions, w := Opens(actions, w, 2, "d1");
    x, k := Item("x", FIRST + 1), "d1";
    NoneEligible(w.runs, FIRST + 3 * DAY);
    actions, w := Collects(actions, w, 2, k, FIRST + 3 * DAY, FIRST + 2 * DAY);
    assert "d0" in w.runs && w.runs["d0"].job == "digest";
    NextDigestExact(actions, x, k);
  }

  /** A digest that fails before it delivers still moves the window: the item is in no listing. */
  lemma FailedDigestHides() returns (actions: seq<Action>, x: Item, k: string)
    ensures var w := RunAll(actions);
      && x in w.items && k in w.listings && k in w.runs && x.stamp < w.runs[k].startedAt
      && Preceded(w.listings[k], x) && forall j <- w.listings :: x !in w.listings[j].items
  {
    hide Next, RunAll, IsWindow, InWindow;
    var w := START;
    assert RunAll([]) == START by { Empty(); }
    actions, w := Opens([], START, 0, "d0");
    actions, w := Ends(actions, w, 0, "d0", Ok);
    actions, w := Puts(actions, w, 1, "x");
    actions, w := Opens(actions, w, 2, "d1");
    actions, w := Ends(actions, w, 2, "d1", FailedRun);
    actions, w := Waits(actions, w, DAY);
    actions, w := Opens(actions, w, 3, "d2");
    x, k := Item("x", FIRST + 1), "d2";
    LastEligible(w.runs, FIRST + DAY, "d1");
    actions, w := Collects(actions, w, 3, k, FIRST + DAY, FIRST + 2);
    assert "d0" in w.listings[k].seen && w.listings[k].seen["d0"].status == Ok;
    assert Ended(w.listings[k].seen["d1"], FIRST + DAY);
    ListingExact(actions, k, x);
  }
}
