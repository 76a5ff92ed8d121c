/**
 The pull path: merging hits into mentions, and what one visit of the capture loop
 does to a mention. Hits, row ids, clock readings, robots verdicts and captures are
 arguments; URL normalisation is the parameter `norm`.
 */
module Crawler {
  import opened Terms
  import opened Wrappers
  import opened Clock
  import opened Database
  import opened Sessions

  // ----- Merging hits -----

  datatype RawHit = RawHit(
    url: string, title: string, excerpt: string, author: Option<string>, publishedAt: Option<string>,
    matchedTerms: seq<string>)

  /** A hit from a source, with the id and the clock reading a new mention of it would get. */
  datatype Arrival = Arrival(source: string, hit: RawHit, id: string, at: Time)

  type UrlNorm = string -> string

  ghost predicate IsMention(db: Db, id: string, url: string) {
    id in db.tables.mentions && db.tables.mentions[id].url == url
  }

  /** The unique column. */
  ghost predicate UniqueUrls(db: Db) {
    var mentions := db.tables.mentions;
    forall i, j :: i in mentions && j in mentions && mentions[i].url == mentions[j].url ==> i == j
  }

  /** SELECT ... WHERE url = :url. */
  ghost function Find(db: Db, url: string): (r: Option<string>)
    ensures r.Some? ==> IsMention(db, r.value, url)
    ensures r.None? ==> forall id :: !IsMention(db, id, url)
  {
    if exists id :: IsMention(db, id, url) then
      var id :| IsMention(db, id, url);
      Some(id)
    else None
  }

  function NewMention(norm: UrlNorm, a: Arrival): Mention {
    Mention(a.id, a.source, norm(a.hit.url), a.hit.title, a.hit.excerpt, a.hit.author, a.hit.publishedAt, a.at,
            SortedSet(a.hit.matchedTerms), New, None, Pending, 0)
  }

  function Merge(db: Db, id: string, a: Arrival): Db
    requires id in db.tables.mentions
  {
    var m := db.tables.mentions[id];
    var merged := SortedSet(m.matchedTerms + a.hit.matchedTerms);
    if merged == m.matchedTerms then db
    else Log(db, PutMention(db.tables, m.(matchedTerms := merged)), TermsUpdated(id, merged, a.source))
  }

  /** One hit: merged into the mention of its URL, or a new mention. None is an IntegrityError. */
  ghost function Absorb(norm: UrlNorm, db: Db, a: Arrival): Option<Db> {
    match Find(db, norm(a.hit.url))
    case Some(id) => Some(Merge(db, id, a))
    case None => AddMention(db, NewMention(norm, a))
  }

  ghost function AbsorbAll(norm: UrlNorm, db: Db, arrivals: seq<Arrival>): Option<Db> {
    if arrivals == [] then Some(db)
    else
      match AbsorbAll(norm, db, arrivals[..|arrivals| - 1])
      case None => None
      case Some(d) => Absorb(norm, d, arrivals[|arrivals| - 1])
  }

  lemma {:induction false} AbsorbStuck(norm: UrlNorm, db: Db, arrivals: seq<Arrival>, n: nat)
    requires n <= |arrivals| && AbsorbAll(norm, db, arrivals[..n]).None?
    ensures AbsorbAll(norm, db, arrivals).None?
    decreases |arrivals| - n
  {
    if n < |arrivals| {
      assert arrivals[..n + 1][..n] == arrivals[..n];
      AbsorbStuck(norm, db, arrivals, n + 1);
    } else {
      assert arrivals[..n] == arrivals;
    }
  }

  /** Terms of the mention with this URL; None when there is none. */
  ghost function TermsAt(db: Db, url: string): Option<seq<string>> {
    match Find(db, url)
    case Some(id) => Some(db.tables.mentions[id].matchedTerms)
    case None => None
  }

  /** What every merge relies on and keeps. */
  ghost predicate Sorted(db: Db) {
    && UniqueUrls(db)
    && forall id <- db.tables.mentions ::
         db.tables.mentions[id].id == id && Increasing(db.tables.mentions[id].matchedTerms)
  }

  /** On a table with unique URLs a lookup answers with the one mention there is. */
  lemma FindIs(db: Db, id: string, url: string)
    requires UniqueUrls(db) && IsMention(db, id, url)
    ensures Find(db, url) == Some(id)
  {
  }

  lemma SameFind(db: Db, d: Db, url: string)
    requires UniqueUrls(d) && forall id :: IsMention(db, id, url) <==> IsMention(d, id, url)
    ensures Find(db, url) == Find(d, url)
  {
    if Find(db, url).Some? {
      FindIs(d, Find(db, url).value, url);
    }
  }

  /** What is known of a URL after a hit: its own terms join, other URLs keep theirs. */
  ghost predicate Joined(norm: UrlNorm, db: Db, d: Db, a: Arrival, url: string) {
    TermsAt(d, url) ==
    if norm(a.hit.url) == url then Some(SortedSet(TermsAt(db, url).GetOr([]) + a.hit.matchedTerms))
    else TermsAt(db, url)
  }

  /** A change to one mention that keeps its id and URL, and its terms sorted. */
  lemma SortedKept(db: Db, m: Mention)
    requires Sorted(db) && IsMention(db, m.id, m.url) && Increasing(m.matchedTerms)
    ensures forall d: Db :: d.tables == PutMention(db.tables, m) ==> Sorted(d)
    ensures forall d: Db, url :: d.tables == PutMention(db.tables, m) ==> Find(d, url) == Find(db, url)
  {
    forall d: Db, url | d.tables == PutMention(db.tables, m) ensures UniqueUrls(d) && Find(d, url) == Find(db, url) {
      assert forall k :: IsMention(db, k, url) <==> IsMention(d, k, url);
      SameFind(db, d, url);
    }
  }

  lemma MergeExact(norm: UrlNorm, db: Db, id: string, a: Arrival, url: string)
    requires Sorted(db) && IsMention(db, id, norm(a.hit.url))
    ensures Sorted(Merge(db, id, a)) && Joined(norm, db, Merge(db, id, a), a, url)
  {
    var m := db.tables.mentions[id];
    var merged := SortedSet(m.matchedTerms + a.hit.matchedTerms);
    SortedSetExact(m.matchedTerms + a.hit.matchedTerms);
    FindIs(db, id, m.url);
    SortedKept(db, m.(matchedTerms := merged));
    assert Find(Merge(db, id, a), url) == Find(db, url);
  }

  lemma CreateExact(norm: UrlNorm, db: Db, a: Arrival, url: string)
    requires Sorted(db) && AddMention(db, NewMention(norm, a)).Some?
    ensures var d := AddMention(db, NewMention(norm, a)).value; Sorted(d) && Joined(norm, db, d, a, url)
  {
    var d := AddMention(db, NewMention(norm, a)).value;
    SortedSetExact(a.hit.matchedTerms);
    assert [] + a.hit.matchedTerms == a.hit.matchedTerms;
    assert forall k, u :: IsMention(d, k, u) <==> IsMention(db, k, u) || (k == a.id && u == norm(a.hit.url));
    if norm(a.hit.url) == url {
      FindIs(d, a.id, url);
    } else {
      SameFind(db, d, url);
    }
  }

  /** A hit changes what is known of its own URL, by union, and of no other. */
  lemma AbsorbExact(norm: UrlNorm, db: Db, a: Arrival, url: string)
    requires Sorted(db) && Absorb(norm, db, a).Some?
    ensures var d := Absorb(norm, db, a).value; Sorted(d) && Joined(norm, db, d, a, url)
  {
    match Find(db, norm(a.hit.url))
    case Some(id) => MergeExact(norm, db, id, a, url);
    case None => CreateExact(norm, db, a, url);
  }

  // ----- What a run of hits leaves -----

  predicate Seen(norm: UrlNorm, arrivals: seq<Arrival>, url: string) {
    exists a :: a in arrivals && norm(a.hit.url) == url
  }

  /** Union of the terms the hits bring for a URL. */
  function Brings(norm: UrlNorm, arrivals: seq<Arrival>, url: string): set<string> {
    set a, t | a in arrivals && norm(a.hit.url) == url && t in a.hit.matchedTerms :: t
  }

  lemma BringsLast(norm: UrlNorm, arrivals: seq<Arrival>, url: string)
    requires arrivals != []
    ensures var before, a := arrivals[..|arrivals| - 1], arrivals[|arrivals| - 1];
      && (Seen(norm, arrivals, url) <==> Seen(norm, before, url) || norm(a.hit.url) == url)
      && Brings(norm, arrivals, url)
         == Brings(norm, before, url) + if norm(a.hit.url) == url then Elements(a.hit.matchedTerms) else {}
  {
    var before, a := arrivals[..|arrivals| - 1], arrivals[|arrivals| - 1];
    assert arrivals == before + [a];
    assert forall x :: x in arrivals <==> x in before || x == a;
  }

  /** Exactly these terms are known of a URL, as the one sorted list of them. */
  ghost predicate Knows(db: Db, url: string, known: bool, terms: set<string>) {
    match TermsAt(db, url)
    case Some(s) => known && Increasing(s) && Elements(s) == terms
    case None => !known
  }

  /** A run leaves for every URL the union of what was known and what its hits bring. */
  lemma {:induction false} RunLearns(norm: UrlNorm, db: Db, arrivals: seq<Arrival>, url: string)
    requires Sorted(db) && AbsorbAll(norm, db, arrivals).Some?
    ensures var d, before := AbsorbAll(norm, db, arrivals).value, TermsAt(db, url);
      && Sorted(d)
      && Knows(d, url, before.Some? || Seen(norm, arrivals, url),
               Elements(before.GetOr([])) + Brings(norm, arrivals, url))
  {
    if arrivals == [] {
    } else {
      var n := |arrivals| - 1;
      RunLearns(norm, db, arrivals[..n], url);
      BringsLast(norm, arrivals, url);
      var d, a := AbsorbAll(norm, db, arrivals[..n]).value, arrivals[n];
      AbsorbExact(norm, d, a, url);
      var known := TermsAt(d, url).GetOr([]);
      SortedSetExact(known + a.hit.matchedTerms);
      ElementsConcat(known, a.hit.matchedTerms);
    }
  }

  /** Known terms determine the stored list. */
  lemma KnowsOne(c: Db, d: Db, url: string, known: bool, terms: set<string>)
    requires Knows(c, url, known, terms) && Knows(d, url, known, terms)
    ensures TermsAt(c, url) == TermsAt(d, url)
  {
    if known {
      IncreasingUnique(TermsAt(c, url).value, TermsAt(d, url).value);
    }
  }

  /** Order and repetition of the hits do not show in what is known. */
  lemma Confluence(norm: UrlNorm, db: Db, xs: seq<Arrival>, ys: seq<Arrival>, url: string)
    requires Sorted(db) && AbsorbAll(norm, db, xs).Some? && AbsorbAll(norm, db, ys).Some?
    requires Seen(norm, xs, url) == Seen(norm, ys, url) && Brings(norm, xs, url) == Brings(norm, ys, url)
    ensures TermsAt(AbsorbAll(norm, db, xs).value, url) == TermsAt(AbsorbAll(norm, db, ys).value, url)
  {
    RunLearns(norm, db, xs, url);
    RunLearns(norm, db, ys, url);
    KnowsOne(AbsorbAll(norm, db, xs).value, AbsorbAll(norm, db, ys).value, url,
             TermsAt(db, url).Some? || Seen(norm, xs, url),
             Elements(TermsAt(db, url).GetOr([])) + Brings(norm, xs, url));
  }

  /** The record already has this hit. */
  ghost predicate Known(norm: UrlNorm, db: Db, a: Arrival) {
    var s := TermsAt(db, norm(a.hit.url));
    s.Some? && Elements(a.hit.matchedTerms) <= Elements(s.value)
  }

  lemma KnownExact(norm: UrlNorm, db: Db, a: Arrival)
    requires Sorted(db) && Absorb(norm, db, a).Some?
    ensures var d := Absorb(norm, db, a).value;
      && (d == db <==> Known(norm, db, a))
      && (d != db ==> |d.log| == |db.log| + 1)
      && |db.log| <= |d.log|
  {
    var url := norm(a.hit.url);
    match Find(db, url)
    case None =>
    case Some(id) =>
      var m := db.tables.mentions[id];
      var merged := SortedSet(m.matchedTerms + a.hit.matchedTerms);
      SortedSetExact(m.matchedTerms + a.hit.matchedTerms);
      ElementsConcat(m.matchedTerms, a.hit.matchedTerms);
      if Known(norm, db, a) {
        IncreasingUnique(merged, m.matchedTerms);
      }
  }

  lemma {:induction false} LogGrows(norm: UrlNorm, db: Db, arrivals: seq<Arrival>)
    requires Sorted(db) && AbsorbAll(norm, db, arrivals).Some?
    ensures Sorted(AbsorbAll(norm, db, arrivals).value) && |db.log| <= |AbsorbAll(norm, db, arrivals).value.log|
  {
    if arrivals != [] {
      var n := |arrivals| - 1;
      LogGrows(norm, db, arrivals[..n]);
      KnownExact(norm, AbsorbAll(norm, db, arrivals[..n]).value, arrivals[n]);
      AbsorbExact(norm, AbsorbAll(norm, db, arrivals[..n]).value, arrivals[n], "");
    }
  }

  /** A run changes nothing, and logs nothing, exactly when the record already has all its hits. */
  lemma {:induction false} NothingNewExact(norm: UrlNorm, db: Db, arrivals: seq<Arrival>)
    requires Sorted(db)
    ensures AbsorbAll(norm, db, arrivals) == Some(db) <==> forall a :: a in arrivals ==> Known(norm, db, a)
  {
    if arrivals != [] {
      var n := |arrivals| - 1;
      var before, a := arrivals[..n], arrivals[n];
      assert arrivals == before + [a];
      NothingNewExact(norm, db, before);
      if AbsorbAll(norm, db, arrivals) == Some(db) {
        var d := AbsorbAll(norm, db, before).value;
        LogGrows(norm, db, before);
        KnownExact(norm, d, a);
      } else if forall x :: x in arrivals ==> Known(norm, db, x) {
        assert Known(norm, db, a) && forall x :: x in before ==> x in arrivals;
        KnownExact(norm, db, a);
      }
    }
  }

  predicate Covers(norm: UrlNorm, x: Arrival, y: Arrival) {
    norm(x.hit.url) == norm(y.hit.url) && Elements(y.hit.matchedTerms) <= Elements(x.hit.matchedTerms)
  }

  /** Some hit of the run has this one's URL and all its terms. */
  predicate Covered(norm: UrlNorm, xs: seq<Arrival>, y: Arrival) {
    exists x :: x in xs && Covers(norm, x, y)
  }

  /** Hits absorbed once are known from then on: seeing them again logs nothing. */
  lemma ReplayedHits(norm: UrlNorm, db: Db, xs: seq<Arrival>, ys: seq<Arrival>)
    requires Sorted(db) && AbsorbAll(norm, db, xs).Some?
    requires forall y :: y in ys ==> Covered(norm, xs, y)
    ensures AbsorbAll(norm, AbsorbAll(norm, db, xs).value, ys) == AbsorbAll(norm, db, xs)
  {
    var d := AbsorbAll(norm, db, xs).value;
    forall y | y in ys ensures Known(norm, d, y) {
      assert Covered(norm, xs, y);
      var x :| x in xs && Covers(norm, x, y);
      RunLearns(norm, db, xs, norm(y.hit.url));
      assert Elements(x.hit.matchedTerms) <= Brings(norm, xs, norm(y.hit.url));
    }
    LogGrows(norm, db, xs);
    NothingNewExact(norm, d, ys);
  }

  lemma MergeFaithful(db: Db, id: string, a: Arrival)
    requires Faithful(db) && id in db.tables.mentions
    ensures Faithful(Merge(db, id, a))
  {
    var m := db.tables.mentions[id];
    var merged := SortedSet(m.matchedTerms + a.hit.matchedTerms);
    if merged != m.matchedTerms {
      LogMention(db, m.(matchedTerms := merged), TermsUpdated(id, merged, a.source));
    }
  }

  lemma {:induction false} AbsorbAllFaithful(norm: UrlNorm, db: Db, arrivals: seq<Arrival>)
    requires Faithful(db)
    ensures var r := AbsorbAll(norm, db, arrivals); r.Some? ==> Faithful(r.value)
  {
    if arrivals != [] {
      var n := |arrivals| - 1;
      AbsorbAllFaithful(norm, db, arrivals[..n]);
      var r := AbsorbAll(norm, db, arrivals[..n]);
      if r.Some? {
        AddsFaithful(r.value);
        var found := Find(r.value, norm(arrivals[n].hit.url));
        if found.Some? {
          MergeFaithful(r.value, found.value, arrivals[n]);
        }
      }
    }
  }

  /** Mentions stay, under their URLs. */
  lemma AbsorbKeeps(norm: UrlNorm, db: Db, a: Arrival)
    requires Sorted(db) && Absorb(norm, db, a).Some?
    ensures var d := Absorb(norm, db, a).value;
      Sorted(d) && forall id, u :: IsMention(db, id, u) ==> IsMention(d, id, u)
  {
    AbsorbExact(norm, db, a, "");
  }

  /** Ids and URLs of the mentions a run creates, in order. */
  ghost function Created(norm: UrlNorm, db: Db, arrivals: seq<Arrival>): seq<(string, string)> {
    if arrivals == [] then []
    else
      var n := |arrivals| - 1;
      var before, a := AbsorbAll(norm, db, arrivals[..n]), arrivals[n];
      Created(norm, db, arrivals[..n]) +
      if before.Some? && Find(before.value, norm(a.hit.url)).None? then [(a.id, norm(a.hit.url))] else []
  }

  /** The row of a mention first seen in this hit. */
  predicate IsFirst(m: Mention, url: string, a: Arrival) {
    && m.id == a.id && m.source == a.source && m.url == url && m.title == a.hit.title && m.excerpt == a.hit.excerpt
    && m.author == a.hit.author && m.publishedAt == a.hit.publishedAt && m.discoveredAt == a.at
    && Increasing(m.matchedTerms) && Elements(m.matchedTerms) == Elements(a.hit.matchedTerms)
    && m.status == New && m.notes == None && m.captureState == Pending && m.captureAttempts == 0
  }

  predicate Joins(before: Db, after: Db, id: string, a: Arrival, grew: bool) {
    && id in before.tables.mentions && id in after.tables.mentions
    && var m, n := before.tables.mentions[id], after.tables.mentions[id];
    && n == m.(matchedTerms := n.matchedTerms) && Increasing(n.matchedTerms)
    && Elements(n.matchedTerms) == Elements(m.matchedTerms) + Elements(a.hit.matchedTerms)
    && (grew <==> !(Elements(a.hit.matchedTerms) <= Elements(m.matchedTerms)))
    && after.tables == before.tables.(mentions := before.tables.mentions[id := n])
    && after.log == before.log + if grew then [TermsUpdated(id, n.matchedTerms, a.source)] else []
  }

  /** What one hit does: a new mention with its event, or its terms to the mention there is, logged if they are more. */
  ghost predicate HitEnds(before: Db, after: Db, url: string, a: Arrival, isNew: bool, grew: bool) {
    var t, u := before.tables, after.tables;
    && (isNew <==> forall id :: !IsMention(before, id, url))
    && (isNew ==>
          && !grew && a.id !in t.mentions && a.id in u.mentions && IsFirst(u.mentions[a.id], url, a)
          && u == t.(mentions := t.mentions[a.id := u.mentions[a.id]])
          && after.log == before.log + [MentionCreated(u.mentions[a.id])])
    && (!isNew ==> exists id :: IsMention(before, id, url) && Joins(before, after, id, a, grew))
  }

  lemma MergeJoins(db: Db, id: string, a: Arrival)
    requires Sorted(db) && id in db.tables.mentions
    ensures Joins(db, Merge(db, id, a), id, a, Merge(db, id, a) != db)
  {
    var m := db.tables.mentions[id];
    var merged := SortedSet(m.matchedTerms + a.hit.matchedTerms);
    SortedSetExact(m.matchedTerms + a.hit.matchedTerms);
    ElementsConcat(m.matchedTerms, a.hit.matchedTerms);
    if Elements(a.hit.matchedTerms) <= Elements(m.matchedTerms) {
      IncreasingUnique(merged, m.matchedTerms);
    }
  }

  lemma HitExact(norm: UrlNorm, db: Db, a: Arrival)
    requires Sorted(db) && Absorb(norm, db, a).Some?
    ensures var d := Absorb(norm, db, a).value;
      var isNew := Find(db, norm(a.hit.url)).None?;
      HitEnds(db, d, norm(a.hit.url), a, isNew, !isNew && d != db)
  {
    match Find(db, norm(a.hit.url))
    case Some(id) => MergeJoins(db, id, a);
    case None => SortedSetExact(a.hit.matchedTerms);
  }

  lemma HitKeys(d: Db, e: Db, url: string, a: Arrival, isNew: bool, grew: bool)
    requires HitEnds(d, e, url, a, isNew, grew)
    ensures isNew ==> a.id !in d.tables.mentions && IsMention(e, a.id, url)
    ensures e.tables.mentions.Keys == d.tables.mentions.Keys + if isNew then {a.id} else {}
  {
  }

  /** Every mention the run lists is new to the table, under its URL, and no other is. */
  ghost predicate ListsNew(before: Db, after: Db, created: seq<(string, string)>) {
    && (forall c <- created :: c.0 !in before.tables.mentions && IsMention(after, c.0, c.1))
    && (forall i, j :: 0 <= i < j < |created| ==> created[i].0 != created[j].0)
    && forall id <- after.tables.mentions :: id in before.tables.mentions || exists u :: (id, u) in created
  }

  lemma NothingListed(db: Db)
    ensures ListsNew(db, db, [])
  {
  }

  lemma ListsNewNext(before: Db, d: Db, e: Db, created: seq<(string, string)>, id: string, url: string)
    requires ListsNew(before, d, created) && id !in d.tables.mentions && IsMention(e, id, url)
    requires forall k <- before.tables.mentions :: k in d.tables.mentions
    requires forall k, u :: IsMention(d, k, u) ==> IsMention(e, k, u)
    requires e.tables.mentions.Keys == d.tables.mentions.Keys + {id}
    ensures ListsNew(before, e, created + [(id, url)])
  {
    var more := created + [(id, url)];
    forall k | k in e.tables.mentions && k !in before.tables.mentions ensures exists u :: (k, u) in more {
      if k == id {
        assert more[|created|] == (id, url);
      } else {
        var u :| (k, u) in created;
        assert (k, u) in more;
      }
    }
    forall i, j | 0 <= i < j < |more| ensures more[i].0 != more[j].0 {
      if j == |created| {
        assert created[i] in created;
      }
    }
  }

  lemma ListsNewSame(before: Db, d: Db, e: Db, created: seq<(string, string)>)
    requires ListsNew(before, d, created) && e.tables.mentions.Keys == d.tables.mentions.Keys
    requires forall k, u :: IsMention(d, k, u) ==> IsMention(e, k, u)
    ensures ListsNew(before, e, created)
  {
  }

  lemma {:induction false} CreatedExact(norm: UrlNorm, db: Db, arrivals: seq<Arrival>)
    requires Sorted(db) && AbsorbAll(norm, db, arrivals).Some?
    ensures var d := AbsorbAll(norm, db, arrivals).value;
      && Sorted(d) && ListsNew(db, d, Created(norm, db, arrivals))
      && forall k <- db.tables.mentions :: k in d.tables.mentions
  {
    hide Absorb, Sorted, UniqueUrls, ListsNew, HitEnds;
    if arrivals == [] {
      NothingListed(db);
    } else {
      var n := |arrivals| - 1;
      CreatedExact(norm, db, arrivals[..n]);
      var d, e, a := AbsorbAll(norm, db, arrivals[..n]).value, AbsorbAll(norm, db, arrivals).value, arrivals[n];
      AbsorbKeeps(norm, d, a);
      HitExact(norm, d, a);
      var isNew := Find(d, norm(a.hit.url)).None?;
      HitKeys(d, e, norm(a.hit.url), a, isNew, !isNew && e != d);
      if isNew {
        ListsNewNext(db, d, e, Created(norm, db, arrivals[..n]), a.id, norm(a.hit.url));
      } else {
        assert Created(norm, db, arrivals) == Created(norm, db, arrivals[..n]);
        ListsNewSame(db, d, e, Created(norm, db, arrivals[..n]));
      }
    }
  }

  // ----- When a run is refused -----

  /** The first hit of its URL, in the table and in the run: the one that is inserted. */
  ghost predicate IsFirstHit(norm: UrlNorm, db: Db, arrivals: seq<Arrival>, i: nat)
    requires i < |arrivals|
  {
    var url := norm(arrivals[i].hit.url);
    && (forall id :: !IsMention(db, id, url))
    && forall j :: 0 <= j < i ==> norm(arrivals[j].hit.url) != url
  }

  ghost predicate IsEntered(norm: UrlNorm, db: Db, arrivals: seq<Arrival>, id: string) {
    exists i :: 0 <= i < |arrivals| && IsFirstHit(norm, db, arrivals, i) && arrivals[i].id == id
  }

  /** No mention has the id of a hit that is inserted, and no two of those share one. */
  ghost predicate FreeIds(norm: UrlNorm, db: Db, arrivals: seq<Arrival>) {
    forall i :: 0 <= i < |arrivals| && IsFirstHit(norm, db, arrivals, i) ==>
      && arrivals[i].id !in db.tables.mentions
      && forall j :: 0 <= j < i && IsFirstHit(norm, db, arrivals, j) ==> arrivals[j].id != arrivals[i].id
  }

  lemma FirstHitPrefix(norm: UrlNorm, db: Db, arrivals: seq<Arrival>, n: nat, i: nat)
    requires i < n <= |arrivals|
    ensures IsFirstHit(norm, db, arrivals[..n], i) <==> IsFirstHit(norm, db, arrivals, i)
  {
    assert forall j :: 0 <= j <= i ==> arrivals[..n][j] == arrivals[j];
  }

  lemma InsertedIsFirst(norm: UrlNorm, db: Db, arrivals: seq<Arrival>, n: nat)
    requires Sorted(db) && n < |arrivals| && AbsorbAll(norm, db, arrivals[..n]).Some?
    ensures var d := AbsorbAll(norm, db, arrivals[..n]).value;
      Find(d, norm(arrivals[n].hit.url)).None? <==> IsFirstHit(norm, db, arrivals, n)
  {
    hide AbsorbAll;
    var url := norm(arrivals[n].hit.url);
    RunLearns(norm, db, arrivals[..n], url);
    assert forall j :: 0 <= j < n ==> arrivals[..n][j] == arrivals[j];
  }

  lemma EnteredNext(norm: UrlNorm, db: Db, arrivals: seq<Arrival>, id: string)
    requires arrivals != []
    ensures var n := |arrivals| - 1;
      IsEntered(norm, db, arrivals, id)
      <==> IsEntered(norm, db, arrivals[..n], id) || (IsFirstHit(norm, db, arrivals, n) && arrivals[n].id == id)
  {
    hide IsFirstHit;
    var n := |arrivals| - 1;
    forall i: nat | i < n ensures IsFirstHit(norm, db, arrivals[..n], i) <==> IsFirstHit(norm, db, arrivals, i) {
      FirstHitPrefix(norm, db, arrivals, n, i);
    }
    if IsEntered(norm, db, arrivals[..n], id) {
      var i :| 0 <= i < n && IsFirstHit(norm, db, arrivals[..n], i) && arrivals[..n][i].id == id;
      assert IsFirstHit(norm, db, arrivals, i);
    }
    if IsEntered(norm, db, arrivals, id) && !(IsFirstHit(norm, db, arrivals, n) && arrivals[n].id == id) {
      var i :| 0 <= i < |arrivals| && IsFirstHit(norm, db, arrivals, i) && arrivals[i].id == id;
      assert IsFirstHit(norm, db, arrivals[..n], i) && arrivals[..n][i].id == id;
    }
  }

  lemma FreeNext(norm: UrlNorm, db: Db, arrivals: seq<Arrival>)
    requires arrivals != []
    ensures var n := |arrivals| - 1;
      FreeIds(norm, db, arrivals)
      <==> && FreeIds(norm, db, arrivals[..n])
           && (IsFirstHit(norm, db, arrivals, n) ==>
                 arrivals[n].id !in db.tables.mentions && !IsEntered(norm, db, arrivals[..n], arrivals[n].id))
  {
    hide IsFirstHit;
    var n := |arrivals| - 1;
    forall i: nat | i < n
      ensures IsFirstHit(norm, db, arrivals[..n], i) <==> IsFirstHit(norm, db, arrivals, i)
      ensures arrivals[..n][i] == arrivals[i]
    {
      FirstHitPrefix(norm, db, arrivals, n, i);
    }
  }

  lemma AbsorbAdmits(norm: UrlNorm, d: Db, a: Arrival)
    ensures Absorb(norm, d, a).Some? <==> Find(d, norm(a.hit.url)).Some? || a.id !in d.tables.mentions
  {
    if Find(d, norm(a.hit.url)).None? {
      forall id | id in d.tables.mentions ensures d.tables.mentions[id].url != norm(a.hit.url) {
        assert !IsMention(d, id, norm(a.hit.url));
      }
    }
  }

  /** The mentions after a run, and when it is refused: exactly when an id that it needs is taken. */
  lemma {:induction false} RunAdmits(norm: UrlNorm, db: Db, arrivals: seq<Arrival>)
    requires Sorted(db)
    ensures var r := AbsorbAll(norm, db, arrivals);
      && (r.Some? <==> FreeIds(norm, db, arrivals))
      && (r.Some? ==>
            && Sorted(r.value)
            && forall id :: id in r.value.tables.mentions
                            <==> id in db.tables.mentions || IsEntered(norm, db, arrivals, id))
  {
    hide Sorted, IsFirstHit, HitEnds, UniqueUrls;
    if arrivals != [] {
      hide FreeIds, IsEntered;
      var n := |arrivals| - 1;
      var a := arrivals[n];
      RunAdmits(norm, db, arrivals[..n]);
      FreeNext(norm, db, arrivals);
      var before := AbsorbAll(norm, db, arrivals[..n]);
      if before.Some? {
        var d, r := before.value, Absorb(norm, before.value, a);
        InsertedIsFirst(norm, db, arrivals, n);
        AbsorbAdmits(norm, d, a);
        if r.Some? {
          AbsorbKeeps(norm, d, a);
          HitExact(norm, d, a);
          var isNew := Find(d, norm(a.hit.url)).None?;
          HitKeys(d, r.value, norm(a.hit.url), a, isNew, !isNew && r.value != d);
          forall id ensures id in r.value.tables.mentions
                            <==> id in db.tables.mentions || IsEntered(norm, db, arrivals, id)
          {
            EnteredNext(norm, db, arrivals, id);
          }
        }
      }
    }
  }

  /** The run's own mentions first, then the table; both give the same answer. */
  method Lookup(session: Session, seen: map<string, string>, url: string) returns (existing: Option<string>)
    requires UniqueUrls(session.db) && forall u <- seen :: IsMention(session.db, seen[u], u)
    ensures existing == Find(session.db, url)
  {
    var mentions := session.db.tables.mentions;
    if url in seen {
      existing := Some(seen[url]);
    } else if exists id :: id in mentions && mentions[id].url == url {
      var id :| id in mentions && mentions[id].url == url;
      assert IsMention(session.db, id, url);
      existing := Some(id);
    } else {
      existing := None;
    }
  }

  method CreateMention(session: Session, norm: UrlNorm, a: Arrival) returns (ok: bool)
    modifies session`db
    ensures ok <==> AddMention(old(session.db), NewMention(norm, a)).Some?
    ensures session.db == Committed(old(session.db), AddMention(old(session.db), NewMention(norm, a)))
  {
    var mention := Mention(
      id := a.id, source := a.source, url := norm(a.hit.url), title := a.hit.title, excerpt := a.hit.excerpt,
      author := a.hit.author, publishedAt := a.hit.publishedAt, discoveredAt := a.at,
      matchedTerms := SortedSet(a.hit.matchedTerms), status := New, notes := None,
      captureState := Pending, captureAttempts := 0);
    ok := session.RecordMention(mention);
  }

  method MergeInto(session: Session, id: string, a: Arrival) returns (grew: bool)
    requires id in session.db.tables.mentions && session.db.tables.mentions[id].id == id
    modifies session`db
    ensures session.db == Merge(old(session.db), id, a)
    ensures |session.db.log| == |old(session.db).log| + if grew then 1 else 0
  {
    var m := session.db.tables.mentions[id];
    var merged := SortedSet(m.matchedTerms + a.hit.matchedTerms);
    grew := merged != m.matchedTerms;
    if grew {
      session.Update(PutMention(session.db.tables, m.(matchedTerms := merged)), TermsUpdated(m.id, merged, a.source));
    }
  }

  /** One hit of the loop. */
  method AbsorbHit(session: Session, norm: UrlNorm, seen: map<string, string>, a: Arrival)
    returns (ok: bool, isNew: bool, grew: bool)
    requires Sorted(session.db) && forall u <- seen :: IsMention(session.db, seen[u], u)
    modifies session`db
    ensures ok <==> Absorb(norm, old(session.db), a).Some?
    ensures ok ==> session.db == Absorb(norm, old(session.db), a).value && Sorted(session.db)
    ensures ok ==> forall id, u :: IsMention(old(session.db), id, u) ==> IsMention(session.db, id, u)
    ensures ok ==> (isNew <==> Find(old(session.db), norm(a.hit.url)).None?)
    ensures ok && isNew ==> IsMention(session.db, a.id, norm(a.hit.url)) && !grew
    ensures ok ==> |session.db.log| == |old(session.db).log| + (if isNew || grew then 1 else 0)
    ensures ok ==> HitEnds(old(session.db), session.db, norm(a.hit.url), a, isNew, grew)
  {
    ok, isNew, grew := true, false, false;
    ghost var before := session.db;
    var existing := Lookup(session, seen, norm(a.hit.url));
    if existing.Some? {
      grew := MergeInto(session, existing.value, a);
    } else {
      isNew := true;
      ok := CreateMention(session, norm, a);
    }
    if ok {
      AbsorbKeeps(norm, before, a);
      HitExact(norm, before, a);
    }
  }

  /**
   The loop over the hits, with the mentions this run created kept aside so that
   their lookups need no query. Everything is undone when an insert is refused.
   */
  method DedupeAndStore(session: Session, norm: UrlNorm, arrivals: seq<Arrival>)
    returns (ok: bool, created: seq<(string, string)>, updated: nat)
    requires Sorted(session.db)
    modifies session
    ensures var r := AbsorbAll(norm, old(session.db), arrivals);
      && (ok <==> r.Some?)
      && session.committed == session.db == (if ok then r.value else old(session.committed))
    ensures ok <==> FreeIds(norm, old(session.db), arrivals)
    ensures ok ==> created == Created(norm, old(session.db), arrivals)
    ensures ok ==> ListsNew(old(session.db), session.db, created)
    ensures ok ==> |session.db.log| == |old(session.db).log| + |created| + updated
  {
    hide Absorb, Sorted, UniqueUrls, ListsNew, FreeIds;
    RunAdmits(norm, session.db, arrivals);
    ok, created, updated := true, [], 0;
    var seenThisRun: map<string, string> := map[];
    for i := 0 to |arrivals|
      invariant ok && Sorted(session.db) && session.committed == old(session.committed)
      invariant AbsorbAll(norm, old(session.db), arrivals[..i]) == Some(session.db)
      invariant forall u <- seenThisRun :: IsMention(session.db, seenThisRun[u], u)
      invariant created == Created(norm, old(session.db), arrivals[..i])
      invariant |session.db.log| == |old(session.db).log| + |created| + updated
    {
      assert arrivals[..i + 1][..i] == arrivals[..i];
      var a := arrivals[i];
      var isNew, grew;
      ok, isNew, grew := AbsorbHit(session, norm, seenThisRun, a);
      if !ok {
        AbsorbStuck(norm, old(session.db), arrivals, i + 1);
        session.Rollback();
        return;
      }
      if isNew {
        seenThisRun := seenThisRun[norm(a.hit.url) := a.id];
        created := created + [(a.id, norm(a.hit.url))];
      } else if grew {
        updated := updated + 1;
      }
    }
    assert arrivals[..|arrivals|] == arrivals;
    CreatedExact(norm, old(session.db), arrivals);
    session.Commit();
  }
}
