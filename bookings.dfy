/** The facility-booking list of the admin panel (src/pages/Bookings.jsx): gym, facility and
    free-text filters, the "showing n of m" figures and the per-option counts. */
module Bookings {
  import opened Seqs
  import opened Text

  datatype Booking = Booking(name: string, email: string, phone: string, gym: string, facility: string,
                             timeSlot: string)

  /** The value both drop-downs use for "no restriction". */
  const All: string := "All"

  /** The three filter inputs. */
  datatype Filters = Filters(gym: string, facility: string, search: string)

  /** The search test: name, email, gym, facility and time slot compared lower-cased, the
      phone against the term as typed. */
  predicate MatchesSearch(b: Booking, term: string)
  {
    var q := Lower(term);
    Contains(Lower(b.name), q)
    || Contains(Lower(b.email), q)
    || Contains(b.phone, term)
    || Contains(Lower(b.gym), q)
    || Contains(Lower(b.facility), q)
    || Contains(Lower(b.timeSlot), q)
  }

  /** The per-booking test of `filtered`; an empty search term lets everything through. */
  predicate Keep(b: Booking, f: Filters)
  {
    (f.gym == All || b.gym == f.gym)
    && (f.facility == All || b.facility == f.facility)
    && (f.search == "" || MatchesSearch(b, f.search))
  }

  /** `filtered`: the kept bookings, in their original order. */
  function Filtered(bookings: seq<Booking>, f: Filters): (r: seq<Booking>)
    ensures Subsequence(r, bookings)
    ensures |r| <= |bookings|
    ensures forall i :: 0 <= i < |r| ==> r[i] in bookings && Keep(r[i], f)
    ensures forall i :: 0 <= i < |bookings| && Keep(bookings[i], f) ==> bookings[i] in r
  {
    var p := b => Keep(b, f);
    FilterIsSubsequence(bookings, p);
    FilterMembers(bookings, p);
    Filter(bookings, p)
  }

  /** `clearFilters`: every gym, every facility, no search. */
  function ClearedFilters(): (f: Filters)
    ensures f.gym == All && f.facility == All && f.search == ""
  {
    Filters(All, All, "")
  }

  /** With the filters cleared, every booking is shown. */
  lemma ClearedShowsAll(bookings: seq<Booking>)
    ensures Filtered(bookings, ClearedFilters()) == bookings
  {
    FilterKeepsAll(bookings, b => Keep(b, ClearedFilters()));
  }

  /** `getFilterStats`. */
  datatype Stats = Stats(total: nat, filtered: nat)

  function FilterStats(bookings: seq<Booking>, f: Filters): (r: Stats)
    ensures r.total == |bookings|
    ensures r.filtered <= r.total
    ensures r.filtered == |Filtered(bookings, f)|
  {
    Stats(|bookings|, |Filtered(bookings, f)|)
  }

  /** Every shown booking is at the chosen gym and facility. */
  lemma ShownMatchChoice(bookings: seq<Booking>, f: Filters)
    ensures forall i :: 0 <= i < |Filtered(bookings, f)| ==>
              (f.gym != All ==> Filtered(bookings, f)[i].gym == f.gym)
              && (f.facility != All ==> Filtered(bookings, f)[i].facility == f.facility)
  {
  }

  /** The search compares the phone case-sensitively and the other fields lower-cased: with
      a phone of "12ab", "ab" finds the booking and "AB" does not. */
  lemma PhoneSearchIsCaseSensitive()
    ensures var b := Booking("", "", "12ab", "", "", "");
            Keep(b, Filters(All, All, "ab")) && !Keep(b, Filters(All, All, "AB"))
  {
    var b := Booking("", "", "12ab", "", "", "");
    assert OccursAt("12ab", "ab", 2);
    assert Lower("AB") == "ab";
    forall i | 0 <= i <= 4 ensures !OccursAt("12ab", "AB", i) {
      if i + 2 <= 4 {
        assert "12ab"[i..i + 2][0] == "12ab"[i];
      }
    }
  }

  // ---------------------------------------------------------------------------
  // Drop-down options
  // ---------------------------------------------------------------------------

  /** The name of branch number `n`. */
  function GymName(n: nat): string
  {
    "Forever Fitness Branch #" + Decimal(n)
  }

  /** The hundred branches offered in the gym drop-down, numbered from 1. */
  function Gyms(): (r: seq<string>)
    ensures |r| == 100
    ensures forall i :: 0 <= i < 100 ==> r[i] == GymName(i + 1)
  {
    seq(100, i requires 0 <= i < 100 => GymName(i + 1))
  }

  /** The first and last branches are #1 and #100. */
  lemma GymsRange()
    ensures Gyms()[0] == "Forever Fitness Branch #1"
    ensures Gyms()[99] == "Forever Fitness Branch #100"
  {
    assert Decimal(1) == "1";
    assert Decimal(10) == Decimal(1) + "0";
    assert Decimal(100) == Decimal(10) + "0";
  }

  /** No two branches share a name. */
  lemma GymsDistinct()
    ensures forall i, j :: 0 <= i < j < 100 ==> Gyms()[i] != Gyms()[j]
  {
    forall i, j | 0 <= i < j < 100 ensures Gyms()[i] != Gyms()[j] {
      if Gyms()[i] == Gyms()[j] {
        PrefixCancel("Forever Fitness Branch #", Decimal(i + 1), Decimal(j + 1));
        DecimalInjective(i + 1, j + 1);
      }
    }
  }

  const Facilities: seq<string> := [
    "Workout Sessions (Strength Training, Cardio, Group Classes)",
    "Steam Bath / Sauna",
    "Personal Training (1:1 Coaching)",
    "Weight Loss Program",
    "Weight Gain Program",
    "Height Improvement Program",
    "Nutrition & Diet Consultation"
  ]

  predicate AtGym(b: Booking, g: string) { b.gym == g }
  predicate ForFacility(b: Booking, fac: string) { b.facility == fac }

  /** The figure beside a gym option: the bookings at that gym; it is positive exactly when
      some booking is at that gym. */
  function GymCount(bookings: seq<Booking>, g: string): (r: nat)
    ensures r > 0 <==> exists i :: 0 <= i < |bookings| && bookings[i].gym == g
  {
    var p := b => AtGym(b, g);
    FilterNonEmpty(bookings, p);
    |Filter(bookings, p)|
  }

  /** The figure beside a facility option: the bookings for that facility; it is positive
      exactly when some booking is for that facility. */
  function FacilityCount(bookings: seq<Booking>, fac: string): (r: nat)
    ensures r > 0 <==> exists i :: 0 <= i < |bookings| && bookings[i].facility == fac
  {
    var p := b => ForFacility(b, fac);
    FilterNonEmpty(bookings, p);
    |Filter(bookings, p)|
  }

  /** One drop-down entry with its count. */
  datatype OptionEntry = OptionEntry(value: string, count: nat)

  /** The gym options shown, in branch order: only branches with at least one booking. */
  function GymOptions(bookings: seq<Booking>): (r: seq<OptionEntry>)
    ensures Subsequence(EntryValues(r), Gyms())
    ensures forall k :: 0 <= k < 100 ==>
              (OptionEntry(Gyms()[k], GymCount(bookings, Gyms()[k])) in r <==> GymCount(bookings, Gyms()[k]) > 0)
  {
    OptionsOf(Gyms(), g => GymCount(bookings, g))
  }

  /** The facility options shown, in list order: only facilities with at least one booking. */
  function FacilityOptions(bookings: seq<Booking>): (r: seq<OptionEntry>)
    ensures Subsequence(EntryValues(r), Facilities)
    ensures forall k :: 0 <= k < |Facilities| ==>
              (OptionEntry(Facilities[k], FacilityCount(bookings, Facilities[k])) in r
               <==> FacilityCount(bookings, Facilities[k]) > 0)
  {
    OptionsOf(Facilities, fac => FacilityCount(bookings, fac))
  }

  /** The values the entries offer, in drop-down order. */
  function EntryValues(entries: seq<OptionEntry>): seq<string>
  {
    seq(|entries|, i requires 0 <= i < |entries| => entries[i].value)
  }

  /** The entries of `values` whose count is positive, each with its count, in the order of
      `values`. */
  function OptionsOf(values: seq<string>, count: string -> nat): (r: seq<OptionEntry>)
    ensures forall i :: 0 <= i < |r| ==> r[i].value in values && r[i].count == count(r[i].value) > 0
    ensures forall i :: 0 <= i < |values| && count(values[i]) > 0 ==> OptionEntry(values[i], count(values[i])) in r
    ensures Subsequence(EntryValues(r), values)
  {
    if values == [] then []
    else
      var rest := OptionsOf(values[1..], count);
      var here := if count(values[0]) > 0 then [OptionEntry(values[0], count(values[0]))] else [];
      assert forall i :: 0 <= i < |values| && i > 0 ==> values[i] == values[1..][i - 1];
      OptionsInOrder(values, here, rest);
      here + rest
  }

  /** Keeping or dropping the first value in front of options drawn in order from the rest
      keeps the options in the order of `values`. */
  lemma OptionsInOrder(values: seq<string>, here: seq<OptionEntry>, rest: seq<OptionEntry>)
    requires values != [] && Subsequence(EntryValues(rest), values[1..])
    requires here == [] || (|here| == 1 && here[0].value == values[0])
    ensures Subsequence(EntryValues(here + rest), values)
  {
    if here == [] {
      assert here + rest == rest;
    } else {
      assert EntryValues(here + rest)[1..] == EntryValues(rest);
    }
  }

  /** A gym is offered exactly when some booking is at it, and its count is the number of
      rows the list shows once it is chosen (with no other filter). */
  lemma GymOptionSpec(bookings: seq<Booking>, k: nat)
    requires k < 100
    ensures var g := Gyms()[k];
            && (OptionEntry(g, GymCount(bookings, g)) in GymOptions(bookings)
                <==> exists i :: 0 <= i < |bookings| && bookings[i].gym == g)
            && (g != All ==> GymCount(bookings, g) == FilterStats(bookings, Filters(g, All, "")).filtered)
  {
    var g := Gyms()[k];
    if g != All {
      FilterCongruent(bookings, b => AtGym(b, g), b => Keep(b, Filters(g, All, "")));
    }
  }

  /** A facility is offered exactly when some booking is for it, and its count is the number
      of rows the list shows once it is chosen (with no other filter). */
  lemma FacilityOptionSpec(bookings: seq<Booking>, k: nat)
    requires k < |Facilities|
    ensures var fac := Facilities[k];
            && (OptionEntry(fac, FacilityCount(bookings, fac)) in FacilityOptions(bookings)
                <==> exists i :: 0 <= i < |bookings| && bookings[i].facility == fac)
            && FacilityCount(bookings, fac) == FilterStats(bookings, Filters(All, fac, "")).filtered
  {
    var fac := Facilities[k];
    FilterCongruent(bookings, b => ForFacility(b, fac), b => Keep(b, Filters(All, fac, "")));
  }
}
