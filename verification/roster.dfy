/**
 * src/components/EmployeeList.tsx: today's roster from the fingerprint
 * machine, narrowed by a case-insensitive search and a status filter, with
 * the per-status counts shown on the filter buttons.
 */
module Roster {
  import opened Wrappers
  import opened Text
  import Seqs

  datatype Presence = Present | Absent | Late

  /** One roster entry; check-in and check-out times are kept as the text they arrive in. */
  datatype Person = Person(
    id: int, name: string, checkIn: Option<string>, checkOut: Option<string>,
    status: Presence, department: string)

  /** The `filterStatus` state: "All" or one of the status words. */
  datatype StatusFilter = All | Only(status: Presence)

  /** `matchesSearch`: the lower-cased search term occurs in the lower-cased name or department. */
  predicate MatchesSearch(e: Person, term: string) {
    Includes(Lower(e.name), Lower(term)) || Includes(Lower(e.department), Lower(term))
  }

  /** `matchesFilter`. */
  predicate MatchesFilter(e: Person, f: StatusFilter) {
    f.All? || e.status == f.status
  }

  /** The callback given to `employees.filter`, for one search term and filter. */
  function Keeps(term: string, f: StatusFilter): Person -> bool {
    e => MatchesSearch(e, term) && MatchesFilter(e, f)
  }

  /** `filteredEmployees`. */
  function Filtered(es: seq<Person>, term: string, f: StatusFilter): (r: seq<Person>)
    ensures |r| <= |es|
    ensures forall e | e in r :: e in es && MatchesSearch(e, term) && MatchesFilter(e, f)
    ensures forall e | e in es && MatchesSearch(e, term) && MatchesFilter(e, f) :: e in r
    ensures f.Only? ==> forall e | e in r :: e.status == f.status
  {
    Seqs.Filter(es, Keeps(term, f))
  }

  /** The list shown keeps the roster's order. */
  lemma FilteredIsSubsequence(es: seq<Person>, term: string, f: StatusFilter)
    ensures Seqs.IsSubsequence(Filtered(es, term, f), es)
  {
    Seqs.FilterIsSubsequence(es, Keeps(term, f));
  }

  /** Each entry is shown exactly as often as it is on the roster when it matches, and never otherwise. */
  lemma FilteredCounts(es: seq<Person>, term: string, f: StatusFilter, e: Person)
    ensures multiset(Filtered(es, term, f))[e] ==
      if MatchesSearch(e, term) && MatchesFilter(e, f) then multiset(es)[e] else 0
  {
    Seqs.FilterMultiset(es, Keeps(term, f), e);
  }

  /** The empty string occurs in every text, so an empty search matches every entry. */
  lemma EmptySearchMatches(e: Person)
    ensures MatchesSearch(e, "")
  {
    assert OccursAt(Lower(e.name), "", 0);
  }

  /** With no search term and the "All" filter the whole roster is shown. */
  lemma ShowAll(es: seq<Person>)
    ensures Filtered(es, "", All) == es
  {
    forall k | 0 <= k < |es|
      ensures Keeps("", All)(es[k])
    {
      EmptySearchMatches(es[k]);
    }
    Seqs.FilterAll(es, Keeps("", All));
  }

  /** The entries with status `s`, as the Present and Absent buttons count them. */
  function WithStatus(es: seq<Person>, s: Presence): (r: seq<Person>)
    ensures |r| <= |es|
    ensures forall e | e in r :: e in es && e.status == s
  {
    Seqs.Filter(es, (e: Person) => e.status == s)
  }

  function CountOf(es: seq<Person>, s: Presence): nat {
    if |es| == 0 then 0
    else (if es[0].status == s then 1 else 0) + CountOf(es[1..], s)
  }

  /** The button counts: every entry has exactly one status, so the three counts add up to the roster size. */
  lemma {:induction false} CountsPartition(es: seq<Person>)
    ensures CountOf(es, Present) + CountOf(es, Absent) + CountOf(es, Late) == |es|
  {
    if |es| > 0 {
      CountsPartition(es[1..]);
    }
  }

  /** The Present and Absent buttons never count more than the All button; late entries are in neither. */
  lemma ButtonCounts(es: seq<Person>)
    ensures |WithStatus(es, Present)| + |WithStatus(es, Absent)| + CountOf(es, Late) == |es|
    ensures |WithStatus(es, Present)| + |WithStatus(es, Absent)| <= |es|
  {
    WithStatusCount(es, Present);
    WithStatusCount(es, Absent);
    CountsPartition(es);
  }

  lemma {:induction false} WithStatusCount(es: seq<Person>, s: Presence)
    ensures |WithStatus(es, s)| == CountOf(es, s)
  {
    if |es| > 0 {
      WithStatusCount(es[1..], s);
      assert WithStatus(es, s) == (if es[0].status == s then [es[0]] else []) + WithStatus(es[1..], s);
    }
  }
}
