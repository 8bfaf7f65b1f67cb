/**
 * The session list of project/src/pages/History.tsx: the case-insensitive
 * search over hospital, model, technician and date, ten sessions per page,
 * and the Previous/Next buttons.
 */
module History {
  import opened Common
  import opened Records

  /* ======  Search  ====== */

  /** String.prototype.toLowerCase on one character, for the ASCII letters. */
  function LowerChar(c: char): (l: char)
    ensures 'A' <= c <= 'Z' ==> l as int == c as int + 32
    ensures !('A' <= c <= 'Z') ==> l == c
  {
    if 'A' <= c <= 'Z' then (c as int + 32) as char else c
  }

  function ToLower(s: string): (r: string)
    ensures |r| == |s|
    ensures forall i :: 0 <= i < |s| ==> r[i] == LowerChar(s[i])
  {
    seq(|s|, i requires 0 <= i < |s| => LowerChar(s[i]))
  }

  /** t occurs in s starting at position i. */
  ghost predicate OccursAt(s: string, t: string, i: int) {
    0 <= i && i + |t| <= |s| && s[i..i + |t|] == t
  }

  /** String.prototype.includes: t occurs somewhere in s (the empty string occurs everywhere). */
  function Includes(s: string, t: string): (b: bool)
    ensures b <==> exists i :: OccursAt(s, t, i)
    decreases |s|
  {
    if |t| > |s| then
      assert forall i :: !OccursAt(s, t, i);
      false
    else if s[..|t|] == t then
      assert OccursAt(s, t, 0);
      true
    else
      OccursShift(s, t);
      Includes(s[1..], t)
  }

  /** Occurrences in s[1..] are the occurrences in s after position 0. */
  lemma OccursShift(s: string, t: string)
    requires |t| <= |s| && s[..|t|] != t
    ensures (exists i :: OccursAt(s, t, i)) <==> (exists i :: OccursAt(s[1..], t, i))
  {
    if exists i :: OccursAt(s, t, i) {
      var i :| OccursAt(s, t, i);
      assert i != 0;
      assert s[1..][i - 1..i - 1 + |t|] == s[i..i + |t|];
      assert OccursAt(s[1..], t, i - 1);
    }
    if exists i :: OccursAt(s[1..], t, i) {
      var i :| OccursAt(s[1..], t, i);
      assert s[1..][i..i + |t|] == s[i + 1..i + 1 + |t|];
      assert OccursAt(s, t, i + 1);
    }
  }

  /** The search predicate, for a term already in lower case. */
  function Matches(session: QcSession, term: string): (b: bool)
    ensures b <==>
      (exists i :: OccursAt(ToLower(session.machine.hospital), term, i))
      || (exists i :: OccursAt(ToLower(session.machine.model), term, i))
      || (exists i :: OccursAt(ToLower(session.machine.techName), term, i))
      || (exists i :: OccursAt(session.machine.date, term, i))
  {
    Includes(ToLower(session.machine.hospital), term)
    || Includes(ToLower(session.machine.model), term)
    || Includes(ToLower(session.machine.techName), term)
    || Includes(session.machine.date, term)
  }

  /** `sessions.filter(...)`: the matching sessions, in their original order. */
  function FilterMatching(sessions: seq<QcSession>, term: string): (r: seq<QcSession>)
    ensures IsSubsequence(r, sessions)
    ensures forall j :: 0 <= j < |r| ==> Matches(r[j], term)
    ensures forall i :: 0 <= i < |sessions| && Matches(sessions[i], term) ==> sessions[i] in r
    decreases |sessions|
  {
    if |sessions| == 0 then []
    else
      var rest := FilterMatching(sessions[1..], term);
      assert forall i :: 1 <= i < |sessions| ==> sessions[i] == sessions[1..][i - 1];
      if Matches(sessions[0], term) then
        assert ([sessions[0]] + rest)[1..] == rest;
        [sessions[0]] + rest
      else rest
  }

  /** The search distributes over concatenation: each session is kept or dropped on its own, in order. */
  lemma {:induction false} FilterMatchingAppend(a: seq<QcSession>, b: seq<QcSession>, term: string)
    ensures FilterMatching(a + b, term) == FilterMatching(a, term) + FilterMatching(b, term)
    decreases |a|
  {
    if |a| == 0 {
      assert a + b == b;
    } else {
      assert (a + b)[0] == a[0] && (a + b)[1..] == a[1..] + b;
      FilterMatchingAppend(a[1..], b, term);
    }
  }

  /**
   * The list filterSessions shows: every session for an empty search term,
   * otherwise those matching the lower-cased term.
   */
  function FilterByTerm(sessions: seq<QcSession>, searchTerm: string): (r: seq<QcSession>)
    ensures searchTerm == [] ==> r == sessions
    ensures IsSubsequence(r, sessions)
    ensures searchTerm != [] ==>
      forall i :: 0 <= i < |sessions| ==> (sessions[i] in r <==> Matches(sessions[i], ToLower(searchTerm)))
  {
    if searchTerm == [] then
      SubsequenceReflexive(sessions);
      sessions
    else
      var r := FilterMatching(sessions, ToLower(searchTerm));
      assert forall x :: x in r ==> Matches(x, ToLower(searchTerm));
      r
  }

  /** A search is case-insensitive in the term: changing the case of its letters keeps the same list. */
  lemma SearchIgnoresTermCase(sessions: seq<QcSession>, t1: string, t2: string)
    requires t1 != [] && ToLower(t1) == ToLower(t2)
    ensures FilterByTerm(sessions, t1) == FilterByTerm(sessions, t2)
  {
  }

  /* ======  Pages  ====== */

  const ItemsPerPage: nat := 10

  function Min(a: int, b: int): int { if a <= b then a else b }
  function Max(a: int, b: int): int { if a >= b then a else b }

  /** Math.ceil(n / 10): the fewest pages of ten that hold n sessions. */
  function TotalPages(n: nat): (t: nat)
    ensures t * ItemsPerPage >= n
    ensures t > 0 ==> (t - 1) * ItemsPerPage < n
    ensures t == 0 <==> n == 0
  {
    (n + ItemsPerPage - 1) / ItemsPerPage
  }

  /** `(currentPage - 1) * itemsPerPage` */
  function StartIndex(page: int): (start: int)
    ensures page >= 1 ==> start >= 0
    ensures start % ItemsPerPage == 0 && start / ItemsPerPage + 1 == page
  {
    (page - 1) * ItemsPerPage
  }

  /**
   * `filteredSessions.slice(startIndex, startIndex + itemsPerPage)`: the
   * window of at most ten sessions that starts at the page's first index.
   */
  function DisplayedSessions(filtered: seq<QcSession>, page: int): (r: seq<QcSession>)
    requires page >= 1
    ensures |r| == Min(ItemsPerPage, Max(0, |filtered| - StartIndex(page)))
    ensures forall k :: 0 <= k < |r| ==> r[k] == filtered[StartIndex(page) + k]
  {
    var start := StartIndex(page);
    if start >= |filtered| then []
    else filtered[start..Min(start + ItemsPerPage, |filtered|)]
  }

  /** Session i is shown on page i / 10 + 1, at row i % 10, and that page exists. */
  lemma PageOfSession(filtered: seq<QcSession>, i: int)
    requires 0 <= i < |filtered|
    ensures 1 <= i / ItemsPerPage + 1 <= TotalPages(|filtered|)
    ensures var shown := DisplayedSessions(filtered, i / ItemsPerPage + 1);
      i % ItemsPerPage < |shown| && shown[i % ItemsPerPage] == filtered[i]
  {
  }

  /** Every page from 1 to totalPages shows something, and every page but the last shows ten. */
  lemma PagesInRangeAreFilled(filtered: seq<QcSession>, page: int)
    requires 1 <= page <= TotalPages(|filtered|)
    ensures |DisplayedSessions(filtered, page)| > 0
    ensures page < TotalPages(|filtered|) ==> |DisplayedSessions(filtered, page)| == ItemsPerPage
  {
  }

  /** Previous: `Math.max(1, currentPage - 1)` */
  function PreviousPage(page: int): (p: int)
    ensures p >= 1
    ensures page > 1 ==> p == page - 1
    ensures page <= 1 ==> p == 1
  {
    Max(1, page - 1)
  }

  /** Next: `Math.min(totalPages, currentPage + 1)` */
  function NextPage(page: int, totalPages: int): (p: int)
    ensures p <= totalPages
    ensures page < totalPages ==> p == page + 1
    ensures page >= totalPages ==> p == totalPages
  {
    Min(totalPages, page + 1)
  }

  /** From a page within 1..totalPages, both buttons lead to a page within 1..totalPages. */
  lemma NavigationStaysInRange(page: int, totalPages: int)
    requires 1 <= page <= totalPages
    ensures 1 <= PreviousPage(page) <= totalPages
    ensures 1 <= NextPage(page, totalPages) <= totalPages
  {
  }

  /* ======  The page reached by filterSessions  ====== */

  /** As written: an empty search term keeps the current page, a non-empty one goes to page 1. */
  function PageAfterFilter(searchTerm: string, page: int): (p: int)
    ensures searchTerm != [] ==> p == 1
    ensures searchTerm == [] ==> p == page
  {
    if searchTerm == [] then page else 1
  }

  /**
   * As written, the kept page can lie past the last one: with 21 sessions on
   * page 3, deleting one reloads 20 sessions, filterSessions keeps page 3,
   * and page 3 of 20 sessions is empty although sessions exist.
   */
  lemma StalePageAfterDelete(sessions: seq<QcSession>)
    requires |sessions| == 20
    ensures TotalPages(21) == 3 && TotalPages(|FilterByTerm(sessions, [])|) == 2
    ensures PageAfterFilter([], 3) == 3
    ensures |FilterByTerm(sessions, [])| == 20
    ensures DisplayedSessions(FilterByTerm(sessions, []), PageAfterFilter([], 3)) == []
  {
  }

  /** Corrected: a kept page is brought back to the last page when the list has shrunk. */
  function PageAfterFilterClamped(searchTerm: string, page: int, count: nat): (p: int)
    requires page >= 1
    ensures 1 <= p <= Max(1, TotalPages(count))
    ensures searchTerm != [] ==> p == 1
    ensures searchTerm == [] && page <= TotalPages(count) ==> p == page
  {
    if searchTerm == [] then Min(page, Max(1, TotalPages(count))) else 1
  }

  /** With the corrected page, a non-empty list always shows at least one session. */
  lemma ClampedPageShowsSessions(sessions: seq<QcSession>, searchTerm: string, page: int)
    requires page >= 1
    requires |FilterByTerm(sessions, searchTerm)| > 0
    ensures var f := FilterByTerm(sessions, searchTerm);
      |DisplayedSessions(f, PageAfterFilterClamped(searchTerm, page, |f|))| > 0
  {
    var f := FilterByTerm(sessions, searchTerm);
    PagesInRangeAreFilled(f, PageAfterFilterClamped(searchTerm, page, |f|));
  }

  /* ======  The page's state  ====== */

  class HistoryPage {
    var sessions: seq<QcSession>
    var filteredSessions: seq<QcSession>
    var searchTerm: string
    var currentPage: int

    /** Every way the page changes currentPage keeps it at 1 or above. */
    ghost predicate Valid()
      reads this
    {
      currentPage >= 1
    }

    /** The current page is one of the existing pages (page 1 when the list is empty). */
    ghost predicate PageInRange()
      reads this
    {
      1 <= currentPage <= Max(1, TotalPages(|filteredSessions|))
    }

    constructor ()
      ensures Valid() && PageInRange()
      ensures sessions == [] && filteredSessions == [] && searchTerm == [] && currentPage == 1
    {
      sessions := [];
      filteredSessions := [];
      searchTerm := [];
      currentPage := 1;
    }

    /** The sessions of the current page. */
    function Displayed(): (r: seq<QcSession>)
      reads this
      requires Valid()
      ensures |r| <= ItemsPerPage
    {
      DisplayedSessions(filteredSessions, currentPage)
    }

    /** filterSessions, as written. */
    method FilterSessions()
      requires Valid()
      modifies this`filteredSessions, this`currentPage
      ensures Valid()
      ensures filteredSessions == FilterByTerm(sessions, searchTerm)
      ensures currentPage == PageAfterFilter(searchTerm, old(currentPage))
    {
      if searchTerm == [] {
        filteredSessions := sessions;
        return;
      }
      var term := ToLower(searchTerm);
      var filtered := FilterMatching(sessions, term);
      filteredSessions := filtered;
      currentPage := 1;
    }

    /** filterSessions with the corrected page: it always leaves the page in range. */
    method FilterSessionsClamped()
      requires Valid()
      modifies this`filteredSessions, this`currentPage
      ensures Valid() && PageInRange()
      ensures filteredSessions == FilterByTerm(sessions, searchTerm)
      ensures currentPage == PageAfterFilterClamped(searchTerm, old(currentPage), |filteredSessions|)
    {
      if searchTerm == [] {
        filteredSessions := sessions;
        currentPage := Min(currentPage, Max(1, TotalPages(|filteredSessions|)));
        return;
      }
      var term := ToLower(searchTerm);
      var filtered := FilterMatching(sessions, term);
      filteredSessions := filtered;
      currentPage := 1;
    }

    /** loadSessions followed by the effect on `sessions`, which runs filterSessions. */
    method SessionsLoaded(all: seq<QcSession>)
      requires Valid()
      modifies this
      ensures Valid()
      ensures sessions == all && searchTerm == old(searchTerm)
      ensures filteredSessions == FilterByTerm(all, searchTerm)
      ensures currentPage == PageAfterFilter(searchTerm, old(currentPage))
    {
      sessions := all;
      FilterSessions();
    }

    /** The search box changed, followed by the effect on `searchTerm`. */
    method SearchTermChanged(t: string)
      requires Valid()
      modifies this
      ensures Valid()
      ensures searchTerm == t && sessions == old(sessions)
      ensures filteredSessions == FilterByTerm(sessions, t)
      ensures currentPage == PageAfterFilter(t, old(currentPage))
    {
      searchTerm := t;
      FilterSessions();
    }

    /** The Previous button. */
    method Previous()
      requires Valid()
      modifies this`currentPage
      ensures Valid()
      ensures currentPage == PreviousPage(old(currentPage))
      ensures old(PageInRange()) ==> PageInRange()
    {
      currentPage := Max(1, currentPage - 1);
    }

    /** The Next button, rendered only when there is more than one page. */
    method Next()
      requires Valid() && TotalPages(|filteredSessions|) > 1
      modifies this`currentPage
      ensures Valid()
      ensures currentPage == NextPage(old(currentPage), TotalPages(|filteredSessions|))
      ensures old(PageInRange()) ==> PageInRange()
    {
      currentPage := Min(TotalPages(|filteredSessions|), currentPage + 1);
    }
  }
}
