/** Listing a session's events newest first, a page at a time. */
module EventPages {
  import opened LlmStore
  import opened Aggregates

  function OfSession(session: SessionId): Event -> bool {
    (e: Event) => e.session == session
  }

  function CreatedOf(e: Event): int { e.created }

  /** What ORDER BY created_at DESC may answer; events created at the same instant come in any order. */
  ghost predicate IsListing(events: seq<Event>, session: SessionId, listing: seq<Event>) {
    multiset(listing) == multiset(Filter(events, OfSession(session))) && Descending(listing, CreatedOf)
  }

  function Min(a: nat, b: nat): nat { if a <= b then a else b }

  /** LIMIT … OFFSET …. */
  function Page(listing: seq<Event>, limit: nat, offset: nat): seq<Event> {
    listing[Min(offset, |listing|)..Min(offset + limit, |listing|)]
  }

  ghost predicate DistinctTimes(events: seq<Event>, session: SessionId) {
    var mine := Filter(events, OfSession(session));
    forall i, j :: 0 <= i < j < |mine| ==> mine[i].created != mine[j].created
  }

  /** The pages 1 to k, each taken from the listing the database used for it. */
  function Pages(listings: seq<seq<Event>>, limit: nat, k: nat): seq<Event>
    requires k <= |listings|
  {
    if k == 0 then [] else Pages(listings, limit, k - 1) + Page(listings[k - 1], limit, (k - 1) * limit)
  }

  /** How many pages the session has: the least k with k * limit >= total. */
  function PageCount(total: nat, limit: nat): (k: nat)
    requires limit > 0
    ensures k * limit >= total
    ensures k > 0 ==> (k - 1) * limit < total
  {
    if total == 0 then 0
    else if total <= limit then 1
    else
      assert (PageCount(total - limit, limit) + 1) * limit == PageCount(total - limit, limit) * limit + limit;
      1 + PageCount(total - limit, limit)
  }

  ghost predicate Strict(xs: seq<Event>) {
    forall i, j :: 0 <= i < j < |xs| ==> xs[i].created > xs[j].created
  }

  lemma DistinctTimesAreStrict(events: seq<Event>, session: SessionId, xs: seq<Event>)
    requires IsListing(events, session, xs) && DistinctTimes(events, session)
    ensures Strict(xs)
  {
    var mine := Filter(events, OfSession(session));
    forall i, j | 0 <= i < j < |xs| ensures xs[i].created > xs[j].created {
      DescendingAt(xs, CreatedOf, i, j);
      assert CreatedOf(xs[i]) >= CreatedOf(xs[j]);
      DifferentInAnyOrder(mine, xs, i, j);
      SameMembers(mine, xs, xs[i]);
      SameMembers(mine, xs, xs[j]);
      assert xs[i] in xs && xs[j] in xs;
      var a :| 0 <= a < |mine| && mine[a] == xs[i];
      var b :| 0 <= b < |mine| && mine[b] == xs[j];
      assert mine[a].created != mine[b].created;
    }
  }

  lemma OldestIsLast(xs: seq<Event>, x: Event)
    requires Strict(xs) && x in xs
    ensures xs[|xs| - 1].created <= x.created
    ensures xs[|xs| - 1].created == x.created ==> xs[|xs| - 1] == x
  {
  }

  lemma SameOldest(xs: seq<Event>, ys: seq<Event>)
    requires Strict(xs) && Strict(ys) && multiset(xs) == multiset(ys) && xs != [] && ys != []
    ensures xs[|xs| - 1] == ys[|ys| - 1]
  {
    var x, y := xs[|xs| - 1], ys[|ys| - 1];
    assert x in xs && y in ys;
    hide Strict;
    SameMembers(xs, ys, x);
    SameMembers(xs, ys, y);
    OldestIsLast(xs, y);
    OldestIsLast(ys, x);
  }

  lemma StrictPrefix(xs: seq<Event>)
    requires Strict(xs) && xs != []
    ensures Strict(xs[..|xs| - 1])
  {
  }

  lemma {:induction false} StrictOrderIsUnique(xs: seq<Event>, ys: seq<Event>)
    requires Strict(xs) && Strict(ys) && multiset(xs) == multiset(ys)
    ensures xs == ys
  {
    hide Strict;
    assert |multiset(xs)| == |xs| && |multiset(ys)| == |ys|;
    if xs != [] {
      SameOldest(xs, ys);
      LastOff(xs);
      LastOff(ys);
      StrictPrefix(xs);
      StrictPrefix(ys);
      StrictOrderIsUnique(xs[..|xs| - 1], ys[..|ys| - 1]);
    }
  }

  /** With distinct creation times there is only one order, so all pages come from the same one. */
  lemma ListingIsUnique(events: seq<Event>, session: SessionId, xs: seq<Event>, ys: seq<Event>)
    requires IsListing(events, session, xs) && IsListing(events, session, ys) && DistinctTimes(events, session)
    ensures xs == ys
  {
    DistinctTimesAreStrict(events, session, xs);
    DistinctTimesAreStrict(events, session, ys);
    StrictOrderIsUnique(xs, ys);
  }

  // ----- when the pages partition the list -----

  /** Rows i - 1 and i were created at the same instant. */
  predicate TieAt(listing: seq<Event>, i: nat) {
    0 < i < |listing| && listing[i - 1].created == listing[i].created
  }

  /** Where page k ends. */
  function Break(k: nat, limit: nat): nat { k * limit }

  lemma Breaks(limit: nat, k: nat)
    ensures if k == 0 then Break(k, limit) == 0 else Break(k - 1, limit) + limit == Break(k, limit)
  {
  }

  /** No two events of the same instant are on either side of a page break. */
  ghost predicate NoTieAtBreaks(listing: seq<Event>, limit: nat) {
    forall k: nat :: !TieAt(listing, Break(k, limit))
  }

  /** The database chose a listing for every page, not necessarily the same one. */
  ghost predicate AreListings(events: seq<Event>, session: SessionId, listings: seq<seq<Event>>) {
    forall p :: 0 <= p < |listings| ==> IsListing(events, session, listings[p])
  }

  function Since(t: int): Event -> bool {
    (e: Event) => e.created >= t
  }

  /** The first `c` events are those since `t`. */
  ghost predicate RecentUpTo(xs: seq<Event>, t: int, c: nat) {
    c <= |xs| && forall i :: 0 <= i < |xs| ==> (xs[i].created >= t <==> i < c)
  }

  /** The events since an instant come first. */
  ghost predicate RecentFirst(xs: seq<Event>, t: int) {
    var recent := Filter(xs, Since(t));
    RecentUpTo(xs, t, |recent|) && recent == xs[..|recent|]
  }

  lemma RecentOneMore(rest: seq<Event>, last: Event, t: int, c: nat)
    requires RecentUpTo(rest, t, c) && (last.created >= t && rest != [] ==> rest[|rest| - 1].created >= t)
    ensures last.created >= t ==> c == |rest|
    ensures RecentUpTo(rest + [last], t, if last.created >= t then c + 1 else c)
  {
  }

  lemma OneEventMore(rest: seq<Event>, last: Event, t: int)
    requires RecentFirst(rest, t) && (last.created >= t && rest != [] ==> rest[|rest| - 1].created >= t)
    ensures RecentFirst(rest + [last], t)
  {
    FilterLast(rest, last, Since(t));
    assert Since(t)(last) <==> last.created >= t;
    hide Filter, Since;
    var xs, before := rest + [last], Filter(rest, Since(t));
    RecentOneMore(rest, last, t, |before|);
    assert |before| <= |rest|;
    hide RecentUpTo;
    if last.created >= t {
      assert rest[..|before|] == rest;
      assert xs[..|before| + 1] == xs;
    } else {
      assert xs[..|before|] == rest[..|before|];
    }
  }

  lemma LastTwo(xs: seq<Event>)
    requires |xs| >= 2 && Descending(xs, CreatedOf)
    ensures xs[|xs| - 2].created >= xs[|xs| - 1].created
  {
  }

  lemma {:induction false} RecentComeFirst(xs: seq<Event>, t: int)
    requires Descending(xs, CreatedOf)
    ensures RecentFirst(xs, t)
  {
    hide RecentFirst;
    if xs == [] {
      NoEvents(t);
    } else {
      var rest, last := xs[..|xs| - 1], xs[|xs| - 1];
      if rest != [] { LastTwo(xs); }
      RecentComeFirst(rest, t);
      OneEventMore(rest, last, t);
      assert xs == rest + [last];
    }
  }

  lemma NoEvents(t: int)
    ensures RecentFirst([], t)
  {
  }

  ghost predicate SameRows(xs: seq<Event>, ys: seq<Event>) {
    multiset(xs) == multiset(ys) && Descending(xs, CreatedOf) && Descending(ys, CreatedOf)
  }

  /** All listings show the same instants in the same places. */
  lemma SameTimes(xs: seq<Event>, ys: seq<Event>, i: nat)
    requires SameRows(xs, ys) && i < |xs|
    ensures |xs| == |ys| && xs[i].created == ys[i].created
  {
    assert |multiset(xs)| == |xs| && |multiset(ys)| == |ys|;
    var t, u := xs[i].created, ys[i].created;
    RecentComeFirst(xs, t);
    RecentComeFirst(ys, t);
    RecentComeFirst(xs, u);
    RecentComeFirst(ys, u);
    FilterIgnoresOrder(xs, ys, Since(t));
    FilterIgnoresOrder(xs, ys, Since(u));
  }

  /** Up to a place without a tie, all listings hold the same events. */
  lemma SamePrefix(xs: seq<Event>, ys: seq<Event>, b: nat)
    requires SameRows(xs, ys) && b <= |xs| && !TieAt(xs, b)
    ensures |xs| == |ys| && multiset(xs[..b]) == multiset(ys[..b])
  {
    assert |multiset(xs)| == |xs| && |multiset(ys)| == |ys|;
    if b == |xs| {
      assert xs[..b] == xs && ys[..b] == ys;
    } else if b > 0 {
      var t := xs[b - 1].created;
      DescendingAt(xs, CreatedOf, b - 1, b);
      assert CreatedOf(xs[b - 1]) >= CreatedOf(xs[b]);
      RecentComeFirst(xs, t);
      RecentComeFirst(ys, t);
      FilterIgnoresOrder(xs, ys, Since(t));
      assert |Filter(xs, Since(t))| == b;
    }
  }

  lemma Stretch(xs: seq<Event>, from: nat, to: nat)
    requires from <= to <= |xs|
    ensures multiset(xs[..from]) + multiset(xs[from..to]) == multiset(xs[..to])
  {
    assert xs[..from] + xs[from..to] == xs[..to];
  }

  /** Page k of any listing: the same events, showing the same instants in the same places. */
  lemma SamePage(xs: seq<Event>, ys: seq<Event>, from: nat, to: nat)
    requires SameRows(xs, ys) && from <= to <= |xs| && !TieAt(xs, from) && !TieAt(xs, to)
    ensures |xs| == |ys| && multiset(xs[from..to]) == multiset(ys[from..to])
    ensures forall i :: from <= i < to ==> xs[i].created == ys[i].created
  {
    SamePrefix(xs, ys, from);
    SamePrefix(xs, ys, to);
    Stretch(xs, from, to);
    Stretch(ys, from, to);
    assert multiset(xs[from..to]) == multiset(xs[..to]) - multiset(xs[..from]);
    assert multiset(ys[from..to]) == multiset(ys[..to]) - multiset(ys[..from]);
    forall i | from <= i < to ensures xs[i].created == ys[i].created {
      SameTimes(xs, ys, i);
    }
  }

  /** `pages` holds what the listing holds in its first `n` places, showing the same instants there. */
  ghost predicate HoldsFirst(listing: seq<Event>, n: nat, pages: seq<Event>)
    requires n <= |listing|
  {
    && |pages| == n && multiset(pages) == multiset(listing[..n])
    && forall i :: 0 <= i < n ==> pages[i].created == listing[i].created
  }

  /** Page k, added to the pages before it. */
  lemma OnePageMore(listing: seq<Event>, before: seq<Event>, other: seq<Event>, from: nat, to: nat)
    requires SameRows(listing, other) && from <= to <= |listing| && !TieAt(listing, from) && !TieAt(listing, to)
    requires HoldsFirst(listing, from, before)
    ensures |other| == |listing| && HoldsFirst(listing, to, before + other[from..to])
  {
    SamePage(listing, other, from, to);
    Stretch(listing, from, to);
    hide SameRows, TieAt;
    var page := other[from..to];
    forall i | 0 <= i < to ensures (before + page)[i].created == listing[i].created {
      assert i >= from ==> (before + page)[i] == other[i];
    }
  }

  lemma {:induction false} PagesUpTo(listing: seq<Event>, listings: seq<seq<Event>>, limit: nat, k: nat)
    requires NoTieAtBreaks(listing, limit) && k <= |listings|
    requires forall p :: 0 <= p < k ==> SameRows(listing, listings[p])
    ensures HoldsFirst(listing, Min(Break(k, limit), |listing|), Pages(listings, limit, k))
  {
    hide SameRows, Pages, Break, HoldsFirst;
    Breaks(limit, k);
    if k == 0 {
      NoPages(listings, limit);
      NothingYet(listing);
    } else {
      PagesUpTo(listing, listings, limit, k - 1);
      NextPage(listings, limit, k - 1);
      var from, to := Min(Break(k - 1, limit), |listing|), Min(Break(k, limit), |listing|);
      NoTieHere(listing, limit, k - 1);
      NoTieHere(listing, limit, k);
      OnePageMore(listing, Pages(listings, limit, k - 1), listings[k - 1], from, to);
    }
  }

  lemma NothingYet(listing: seq<Event>)
    ensures HoldsFirst(listing, 0, [])
  {
  }

  lemma NoTieHere(listing: seq<Event>, limit: nat, k: nat)
    requires NoTieAtBreaks(listing, limit)
    ensures !TieAt(listing, Min(Break(k, limit), |listing|))
  {
    assert !TieAt(listing, Break(k, limit));
  }

  lemma {:induction false} DescendingTimes(xs: seq<Event>, ys: seq<Event>)
    requires |xs| == |ys| && Descending(ys, CreatedOf)
    requires forall i :: 0 <= i < |xs| ==> xs[i].created == ys[i].created
    ensures Descending(xs, CreatedOf)
  {
    if |xs| >= 2 {
      DescendingTimes(xs[..|xs| - 1], ys[..|ys| - 1]);
    }
  }

  /** The pages partition the list: whatever order the database uses for each of them, the pages 1 to
      ceil(total / limit), put one after another, are all events of the session, newest first, none missing
      and none repeated, if no tie lies across a page break. */
  lemma PagesPartition(events: seq<Event>, session: SessionId, listing: seq<Event>, listings: seq<seq<Event>>,
                       limit: nat)
    requires 1 <= limit && IsListing(events, session, listing) && NoTieAtBreaks(listing, limit)
    requires |listings| == PageCount(|listing|, limit) && AreListings(events, session, listings)
    ensures IsListing(events, session, Pages(listings, limit, |listings|))
  {
    hide Descending, Filter, NoTieAtBreaks;
    PagesUpTo(listing, listings, limit, |listings|);
    assert listing[..|listing|] == listing;
    DescendingTimes(Pages(listings, limit, |listings|), listing);
  }

  /** Distinct creation times leave no ties at all, and the pages are the one listing there is. */
  lemma PagesOfDistinctTimes(events: seq<Event>, session: SessionId, listing: seq<Event>, listings: seq<seq<Event>>,
                             limit: nat)
    requires 1 <= limit && DistinctTimes(events, session) && IsListing(events, session, listing)
    requires |listings| == PageCount(|listing|, limit) && AreListings(events, session, listings)
    ensures Pages(listings, limit, |listings|) == listing
  {
    DistinctTimesAreStrict(events, session, listing);
    assert forall i :: !TieAt(listing, i);
    hide IsListing, DistinctTimes, Strict;
    PagesPartition(events, session, listing, listings, limit);
    ListingIsUnique(events, session, Pages(listings, limit, |listings|), listing);
  }

  // ----- when they do not -----

  /** The listing with rows i - 1 and i exchanged. */
  function Swapped(listing: seq<Event>, i: nat): (r: seq<Event>)
    requires 0 < i < |listing|
    ensures |r| == |listing|
  {
    listing[i - 1 := listing[i]][i := listing[i - 1]]
  }

  /** Exchanging tied rows gives another legal listing. */
  lemma SwappedIsListing(events: seq<Event>, session: SessionId, listing: seq<Event>, i: nat)
    requires IsListing(events, session, listing) && TieAt(listing, i)
    ensures IsListing(events, session, Swapped(listing, i))
  {
    hide Filter, Descending;
    DescendingTimes(Swapped(listing, i), listing);
    SwappedHolds(listing, i);
  }

  lemma SwappedHolds(listing: seq<Event>, i: nat)
    requires 0 < i < |listing|
    ensures multiset(Swapped(listing, i)) == multiset(listing)
  {
    var pre, post := listing[..i - 1], listing[i + 1..];
    var x, y := listing[i - 1], listing[i];
    assert listing == pre + [x, y] + post;
    assert Swapped(listing, i) == pre + [y, x] + post;
    hide Swapped;
    InAnyOrder(pre, x, y, post);
  }

  lemma InAnyOrder(pre: seq<Event>, x: Event, y: Event, post: seq<Event>)
    ensures multiset(pre + [x, y] + post) == multiset(pre + [y, x] + post)
  {
    assert multiset([x, y]) == multiset([y, x]);
  }

  lemma {:induction false} PagesGrow(listings: seq<seq<Event>>, limit: nat, j: nat, k: nat)
    requires j <= k <= |listings|
    ensures multiset(Pages(listings, limit, j)) <= multiset(Pages(listings, limit, k))
  {
    hide Page;
    if j < k {
      PagesGrow(listings, limit, j, k - 1);
    }
  }

  /** Every page from the listing, but page k + 1 from the one in which the rows around its start are
      exchanged. */
  function Exchanged(listing: seq<Event>, k: nat, b: nat, count: nat): (r: seq<seq<Event>>)
    requires 0 < b < |listing|
    ensures |r| == count
  {
    seq(count, p => if p == k then Swapped(listing, b) else listing)
  }

  lemma ExchangedAreListings(events: seq<Event>, session: SessionId, listing: seq<Event>, k: nat, b: nat, count: nat)
    requires IsListing(events, session, listing) && TieAt(listing, b)
    ensures AreListings(events, session, Exchanged(listing, k, b, count))
  {
    SwappedIsListing(events, session, listing, b);
    hide IsListing, Swapped;
  }

  lemma PageStartsWithExchanged(listing: seq<Event>, limit: nat, b: nat)
    requires 1 <= limit && 0 < b < |listing|
    ensures listing[b - 1] in Page(Swapped(listing, b), limit, b)
  {
    assert Page(Swapped(listing, b), limit, b)[0] == listing[b - 1];
  }

  lemma NextPage(listings: seq<seq<Event>>, limit: nat, k: nat)
    requires k < |listings|
    ensures Pages(listings, limit, k + 1) == Pages(listings, limit, k) + Page(listings[k], limit, Break(k, limit))
  {
    hide Page;
  }

  /** The row before the break then appears on both pages. */
  lemma TieRepeats(listing: seq<Event>, limit: nat, k: nat, count: nat)
    requires 1 <= limit && 0 < Break(k, limit) < |listing| && k < count
    ensures var listings := Exchanged(listing, k, Break(k, limit), count);
      multiset(Pages(listings, limit, count))[listing[Break(k, limit) - 1]] >= 2
  {
    hide Page, Pages, Swapped, Break;
    var b := Break(k, limit);
    var listings := Exchanged(listing, k, b, count);
    assert listings[k] == Swapped(listing, b) && forall p :: 0 <= p < k ==> listings[p] == listing;
    hide Exchanged;
    PagesArePrefix(listing, listings, limit, k);
    assert listing[..b][b - 1] == listing[b - 1];
    PageStartsWithExchanged(listing, limit, b);
    NextPage(listings, limit, k);
    PagesGrow(listings, limit, k + 1, count);
    TwiceInBoth(Pages(listings, limit, k), Page(listings[k], limit, b), listing[b - 1]);
  }

  lemma TwiceInBoth(xs: seq<Event>, ys: seq<Event>, x: Event)
    requires x in xs && x in ys
    ensures multiset(xs + ys)[x] >= 2
  {
    assert x in multiset(xs) && x in multiset(ys);
  }

  lemma {:induction false} PagesArePrefix(listing: seq<Event>, listings: seq<seq<Event>>, limit: nat, k: nat)
    requires k <= |listings| && forall p :: 0 <= p < k ==> listings[p] == listing
    ensures Pages(listings, limit, k) == listing[..Min(Break(k, limit), |listing|)]
  {
    hide Pages, Break;
    Breaks(limit, k);
    if k == 0 {
      NoPages(listings, limit);
    } else {
      PagesArePrefix(listing, listings, limit, k - 1);
      NextPage(listings, limit, k - 1);
      var from, to := Min(Break(k - 1, limit), |listing|), Min(Break(k, limit), |listing|);
      assert listing[..from] + listing[from..to] == listing[..to];
    }
  }

  /** A tie across a page break can always be made to show one event twice and another one never. */
  lemma TieBreaksPages(events: seq<Event>, session: SessionId, listing: seq<Event>, limit: nat, k: nat)
    returns (listings: seq<seq<Event>>)
    requires 1 <= limit && IsListing(events, session, listing) && TieAt(listing, Break(k, limit))
    requires forall i, j :: 0 <= i < j < |events| ==> events[i] != events[j]
    ensures |listings| == PageCount(|listing|, limit) && AreListings(events, session, listings)
    ensures !IsListing(events, session, Pages(listings, limit, |listings|))
  {
    var count := PageCount(|listing|, limit);
    var b := Break(k, limit);
    if k >= count {
      Scaled(count, k, limit);
    }
    listings := Exchanged(listing, k, b, count);
    ExchangedAreListings(events, session, listing, k, b, count);
    TieRepeats(listing, limit, k, count);
    hide Pages, Exchanged, PageCount, IsListing, AreListings;
    RepeatIsNoListing(events, session, Pages(listings, limit, count), listing[b - 1]);
  }

  lemma RepeatIsNoListing(events: seq<Event>, session: SessionId, pages: seq<Event>, x: Event)
    requires forall i, j :: 0 <= i < j < |events| ==> events[i] != events[j]
    requires multiset(pages)[x] >= 2
    ensures !IsListing(events, session, pages)
  {
    CountedAtMostOnce(events, x);
    FilterMultiset(events, OfSession(session), x);
  }

  /** Every choice of listings, one for each page. */
  ghost predicate AlwaysPartition(events: seq<Event>, session: SessionId, total: nat, limit: nat)
    requires 1 <= limit
  {
    forall listings: seq<seq<Event>> {:trigger AreListings(events, session, listings)} ::
      |listings| == PageCount(total, limit) && AreListings(events, session, listings) ==>
        IsListing(events, session, Pages(listings, limit, |listings|))
  }

  /** For a session whose events are pairwise different, the pages are a partition whatever the database
      chooses for them if and only if no two events created at the same instant lie on either side of a
      page break. All listings agree on where the ties are, so any one of them decides. */
  lemma PagesPartitionExactly(events: seq<Event>, session: SessionId, listing: seq<Event>, limit: nat)
    requires 1 <= limit && IsListing(events, session, listing)
    requires forall i, j :: 0 <= i < j < |events| ==> events[i] != events[j]
    ensures AlwaysPartition(events, session, |listing|, limit) <==> NoTieAtBreaks(listing, limit)
  {
    hide IsListing, TieAt;
    if NoTieAtBreaks(listing, limit) {
      forall listings: seq<seq<Event>> | |listings| == PageCount(|listing|, limit) && AreListings(events, session, listings)
        ensures IsListing(events, session, Pages(listings, limit, |listings|))
      {
        PagesPartition(events, session, listing, listings, limit);
      }
    } else {
      var k: nat :| TieAt(listing, Break(k, limit));
      var listings := TieBreaksPages(events, session, listing, limit, k);
    }
  }

  /** The pages that hold anything are exactly those up to ceil(total / limit), and all but the last of
      them are full. */
  lemma NonEmptyPages(listing: seq<Event>, limit: nat, page: nat)
    requires 1 <= limit && 1 <= page
    ensures Page(listing, limit, (page - 1) * limit) != [] <==> page <= PageCount(|listing|, limit)
    ensures page < PageCount(|listing|, limit) ==> |Page(listing, limit, (page - 1) * limit)| == limit
  {
    var count := PageCount(|listing|, limit);
    if page <= count {
      Scaled(page - 1, count - 1, limit);
      if page < count {
        Scaled(page, count - 1, limit);
        assert (page - 1) * limit + limit == page * limit;
      }
    } else {
      Scaled(count, page - 1, limit);
    }
  }

  lemma Scaled(a: nat, b: nat, limit: nat)
    requires a <= b
    ensures a * limit <= b * limit
  {
  }

  lemma EitherOrderIsListing(a: Event, b: Event)
    requires a.session == b.session && a.created == b.created
    ensures IsListing([a, b], a.session, [a, b]) && IsListing([a, b], a.session, [b, a])
  {
    FilterAll([a, b], OfSession(a.session));
    assert [a, b][..1] == [a];
    assert Descending([a, b], CreatedOf);
    hide Filter, Descending;
    assert Swapped([a, b], 1) == [b, a];
    SwappedIsListing([a, b], a.session, [a, b], 1);
  }

  /** The smallest case: two events of one instant, a page each. One is shown twice and the other never. */
  lemma EqualTimesMayRepeat(a: Event, b: Event)
    requires a != b && a.session == b.session && a.created == b.created
    ensures IsListing([a, b], a.session, [a, b]) && IsListing([a, b], a.session, [b, a])
    ensures PageCount(2, 1) == 2 && Pages([[a, b], [b, a]], 1, 2) == [a, a]
  {
    hide IsListing, Filter, Descending, Pages;
    EitherOrderIsListing(a, b);
    var listings := [[a, b], [b, a]];
    NextPage(listings, 1, 0);
    NextPage(listings, 1, 1);
    assert Pages(listings, 1, 0) == [] by { NoPages(listings, 1); }
    assert Page([a, b], 1, 0) == [a] && Page([b, a], 1, 1) == [a];
  }

  lemma NoPages(listings: seq<seq<Event>>, limit: nat)
    ensures Pages(listings, limit, 0) == []
  {
  }
}
