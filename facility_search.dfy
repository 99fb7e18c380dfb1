/**
  The facility directory's search filter: a facility row is kept when at least one
  of its field values, lower-cased, contains the lower-cased search term, and the
  kept rows stay in their loaded order. The same expression appears in the
  directory view of the single-file app and in the stand-alone directory
  component; both are this module.
 */
module FacilitySearch {
  import opened JsText

  /** A facility row as `Object.values` lists it: its field values, in order. */
  type Facility = seq<string>

  /** The search hit on one field value: the lower-cased value includes the lower-cased term. */
  ghost predicate ValueHit(value: string, term: string) {
    Contains(Lower(value), Lower(term))
  }

  /** `Object.values(facility).some(...)`: some field value of the facility is a hit. */
  function Matches(facility: Facility, term: string): (b: bool)
    ensures b <==> exists i :: 0 <= i < |facility| && ValueHit(facility[i], term)
  {
    if facility == [] then
      false
    else if Includes(Lower(facility[0]), Lower(term)) then
      true
    else
      var rest := Matches(facility[1..], term);
      assert rest <==> exists i :: 0 <= i < |facility| && ValueHit(facility[i], term) by {
        forall i | 1 <= i < |facility| ensures facility[i] == facility[1..][i - 1] { }
      }
      rest
  }

  /** `a` is `b` with some elements dropped and the rest kept in their order. */
  ghost predicate IsSubsequence<T>(a: seq<T>, b: seq<T>)
    decreases |b|
  {
    a == [] ||
    (b != [] && ((a[0] == b[0] && IsSubsequence(a[1..], b[1..])) || IsSubsequence(a, b[1..])))
  }

  /**
    `filteredFacilities`: the facilities that match the term, in their original order,
    each kept exactly as many times as it occurs in the input.
   */
  function Filter(facilities: seq<Facility>, term: string): (r: seq<Facility>)
    ensures IsSubsequence(r, facilities)
    ensures forall f :: f in r <==> f in facilities && Matches(f, term)
    ensures forall f :: multiset(r)[f] == if Matches(f, term) then multiset(facilities)[f] else 0
  {
    if facilities == [] then
      []
    else
      var rest := Filter(facilities[1..], term);
      assert facilities == [facilities[0]] + facilities[1..];
      if Matches(facilities[0], term) then
        assert ([facilities[0]] + rest)[1..] == rest;
        [facilities[0]] + rest
      else
        rest
  }

  /** Filtering the filtered list again with the same term changes nothing. */
  lemma {:induction false} FilterIdempotent(facilities: seq<Facility>, term: string)
    ensures Filter(Filter(facilities, term), term) == Filter(facilities, term)
  {
    if facilities != [] {
      FilterIdempotent(facilities[1..], term);
      if Matches(facilities[0], term) {
        assert ([facilities[0]] + Filter(facilities[1..], term))[1..] == Filter(facilities[1..], term);
      }
    }
  }

  /** Only the lower-cased term matters: terms with the same lower-case form filter alike. */
  lemma {:induction false} FilterCaseInsensitive(facilities: seq<Facility>, t1: string, t2: string)
    requires Lower(t1) == Lower(t2)
    ensures Filter(facilities, t1) == Filter(facilities, t2)
  {
    if facilities != [] {
      FilterCaseInsensitive(facilities[1..], t1, t2);
      assert Matches(facilities[0], t1) == Matches(facilities[0], t2);
    }
  }

  /** In particular, searching for a term and for its lower-case form gives the same list. */
  lemma FilterLoweredTerm(facilities: seq<Facility>, term: string)
    ensures Filter(facilities, Lower(term)) == Filter(facilities, term)
  {
    LowerIdempotent(term);
    FilterCaseInsensitive(facilities, Lower(term), term);
  }

  /** A field value that contains the term, with its own capitalisation, is always a hit. */
  lemma MatchesExactHit(facility: Facility, term: string, i: int)
    requires 0 <= i < |facility| && Contains(facility[i], term)
    ensures Matches(facility, term)
  {
    ContainsLower(facility[i], term);
  }

  /** A longer term narrows the search: whatever it keeps, a term it contains keeps too. */
  lemma MatchesNarrowing(facility: Facility, t1: string, t2: string)
    requires Contains(Lower(t2), Lower(t1))
    requires Matches(facility, t2)
    ensures Matches(facility, t1)
  {
    var i :| 0 <= i < |facility| && ValueHit(facility[i], t2);
    ContainsTransitive(Lower(t1), Lower(t2), Lower(facility[i]));
  }

  /** At the level of lists: the result for the longer term is a subsequence of the result for the shorter. */
  lemma {:induction false} FilterNarrowing(facilities: seq<Facility>, t1: string, t2: string)
    requires Contains(Lower(t2), Lower(t1))
    ensures IsSubsequence(Filter(facilities, t2), Filter(facilities, t1))
  {
    if facilities != [] {
      var f := facilities[0];
      FilterNarrowing(facilities[1..], t1, t2);
      if Matches(f, t2) {
        MatchesNarrowing(f, t1, t2);
        assert ([f] + Filter(facilities[1..], t2))[1..] == Filter(facilities[1..], t2);
        assert ([f] + Filter(facilities[1..], t1))[1..] == Filter(facilities[1..], t1);
      } else if Matches(f, t1) {
        SubsequenceDropHead(Filter(facilities[1..], t2), Filter(facilities[1..], t1), f);
      }
    }
  }

  /** A subsequence of `b` is a subsequence of `[x] + b`. */
  lemma SubsequenceDropHead<T>(a: seq<T>, b: seq<T>, x: T)
    requires IsSubsequence(a, b)
    ensures IsSubsequence(a, [x] + b)
  {
    assert ([x] + b)[1..] == b;
  }

  /** The empty term: a facility is kept exactly when it has at least one field. */
  lemma MatchesEmptyTerm(facility: Facility)
    ensures Matches(facility, "") <==> |facility| > 0
  {
    if |facility| > 0 {
      IncludesEmpty(Lower(facility[0]));
      assert Lower("") == "";
      assert ValueHit(facility[0], "");
    }
  }

  /** With an empty term and no field-less facility, the whole list comes back unchanged. */
  lemma {:induction false} FilterEmptyTerm(facilities: seq<Facility>)
    requires forall i :: 0 <= i < |facilities| ==> |facilities[i]| > 0
    ensures Filter(facilities, "") == facilities
  {
    if facilities != [] {
      MatchesEmptyTerm(facilities[0]);
      FilterEmptyTerm(facilities[1..]);
    }
  }
}
