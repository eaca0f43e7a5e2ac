/**
 * The doctor directory (`Doctors.tsx`): one filter over the listed doctors
 * by a search query, a specialization and a consultation mode. Modes are the
 * page's own strings ('online', 'in_person').
 */
module Doctors {
  import opened Common
  import opened Text

  datatype Doctor = Doctor(
    id: string,
    name: string,
    specialization: string,
    consultationModes: seq<string>)

  /** The three inputs above the list. */
  datatype Filters = Filters(searchQuery: string, specialization: string, mode: string)

  const AllSpecializations: string := "All Specializations"
  const AllModes: string := "all"

  /** The inputs on first render, and what Clear Filters sets them back to. */
  const DefaultFilters: Filters := Filters("", AllSpecializations, AllModes)

  /** The name or the specialization contains the query, ignoring case. */
  predicate MatchesSearch(d: Doctor, query: string) {
    Contains(Lower(d.name), Lower(query)) || Contains(Lower(d.specialization), Lower(query))
  }

  predicate MatchesSpecialization(d: Doctor, spec: string) {
    spec == AllSpecializations || d.specialization == spec
  }

  predicate MatchesMode(d: Doctor, mode: string) {
    mode == AllModes || mode in d.consultationModes
  }

  predicate Matches(d: Doctor, f: Filters) {
    MatchesSearch(d, f.searchQuery) && MatchesSpecialization(d, f.specialization) && MatchesMode(d, f.mode)
  }

  function MatchesAll(f: Filters): Doctor -> bool {
    (d: Doctor) => Matches(d, f)
  }

  /**
   * `filteredDoctors`: the doctors that pass all three tests, in list order.
   * A doctor is kept exactly when the search, the specialization and the mode
   * all match.
   */
  function FilteredDoctors(doctors: seq<Doctor>, f: Filters): (r: seq<Doctor>)
    ensures forall d :: d in r <==>
      && d in doctors
      && (Contains(Lower(d.name), Lower(f.searchQuery)) || Contains(Lower(d.specialization), Lower(f.searchQuery)))
      && (f.specialization == AllSpecializations || d.specialization == f.specialization)
      && (f.mode == AllModes || f.mode in d.consultationModes)
  {
    Filter(MatchesAll(f), doctors)
  }

  /** The result keeps the list's order. */
  lemma FilteredIsSubseq(doctors: seq<Doctor>, f: Filters)
    ensures IsSubseq(FilteredDoctors(doctors, f), doctors)
  {
    FilterIsSubseq(MatchesAll(f), doctors);
  }

  /** With the default inputs, and so after Clear Filters, every doctor is listed. */
  lemma DefaultsKeepAll(doctors: seq<Doctor>)
    ensures FilteredDoctors(doctors, DefaultFilters) == doctors
  {
    forall d ensures Matches(d, DefaultFilters) {
      ContainsEmpty(Lower(d.name));
    }
    FilterKeepsAll(MatchesAll(DefaultFilters), doctors);
  }

  /** Clear Filters: the three `set…` calls of its button. */
  function ClearFilters(f: Filters): (r: Filters)
    ensures r == DefaultFilters
  {
    f.(searchQuery := "", specialization := AllSpecializations, mode := AllModes)
  }

  /**
   * Tightening one input only shrinks the list: a query extending the old
   * one, a specific specialization where all were allowed, or a specific
   * mode where all were allowed, each yields a subsequence of the previous
   * result.
   */
  lemma NarrowingShrinks(doctors: seq<Doctor>, f: Filters, g: Filters)
    requires Contains(g.searchQuery, f.searchQuery)
    requires g.specialization == f.specialization || f.specialization == AllSpecializations
    requires g.mode == f.mode || f.mode == AllModes
    ensures IsSubseq(FilteredDoctors(doctors, g), FilteredDoctors(doctors, f))
  {
    forall d | Matches(d, g) ensures Matches(d, f) {
      LowerKeepsContains(g.searchQuery, f.searchQuery);
      if Contains(Lower(d.name), Lower(g.searchQuery)) {
        ContainsTransitive(Lower(d.name), Lower(g.searchQuery), Lower(f.searchQuery));
      } else {
        ContainsTransitive(Lower(d.specialization), Lower(g.searchQuery), Lower(f.searchQuery));
      }
    }
    FilterNarrows(MatchesAll(g), MatchesAll(f), doctors);
  }
}
