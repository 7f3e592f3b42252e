/**
 * The pure half of the mountains store (src/store/mountains.ts): how `loadPeaks` and
 * `loadCheckins` normalise backend rows, how `checkin` writes its row, and the computed
 * views (`filteredPeaks`, `peaksWithCheckin`, `checkedInPeaks`, `stats`, `provinces`,
 * `cities`) as functions of the store's state. The class in module Mountains holds that
 * state and calls these.
 */
module MountainViews {
  import opened Wrappers
  import opened Types
  import opened Backend
  import opened Text

  // =================================================================================
  // loadPeaks: row normalisation

  /** `{ lat: 0, lng: 0 }` */
  const DefaultLocation: JsValue := Obj(map["lat" := Num(0.0), "lng" := Num(0.0)])

  /** The value of `location` after the type checks that open the row mapping. */
  function LocationObject(raw: JsValue, parsers: Parsers): JsValue {
    match raw
    case Str(s) => parsers.jsonParse(s).GetOr(DefaultLocation)
    case _ => if Falsy(raw) || !TypeofObject(raw) then DefaultLocation else raw
  }

  /** `v[key]`; None when the access throws a TypeError (`v` is null or undefined). */
  function Property(v: JsValue, key: string): Option<JsValue> {
    match v
    case Undefined => None
    case Null => None
    case Obj(m) => Some(if key in m then m[key] else Undefined)
    case _ => Some(Undefined)
  }

  /** `parseFloat(v) || 0`; `parseFloat` reads the string form of its argument. */
  function FloatOrZero(v: JsValue, parsers: Parsers): real {
    match v
    case Num(x) => x
    case Str(s) => parsers.parseFloat(s).GetOr(0.0)
    case _ => 0.0
  }

  /** Truncation toward zero, which `parseInt` applies to the decimal form of a number. */
  function Trunc(x: real): int {
    if x >= 0.0 then x.Floor else -((-x).Floor)
  }

  /** `parseInt(v)`; None stands for NaN. */
  function ParseIntOf(v: JsValue, parsers: Parsers): Option<int> {
    match v
    case Num(x) => Some(Trunc(x))
    case Str(s) => parsers.parseInt(s)
    case _ => None
  }

  /** The one case in which the location code throws: the column is a string that parses to `null`. */
  predicate LocationThrows(raw: JsValue, parsers: Parsers) {
    raw.Str? && (parsers.jsonParse(raw.s) == Some(Null) || parsers.jsonParse(raw.s) == Some(Undefined))
  }

  /**
   * The location code as written: None when reading `location.lat` throws, which happens
   * when a location string parses to something that is not an object.
   */
  function NormaliseLocationAsWritten(raw: JsValue, parsers: Parsers): (r: Option<Coord>)
    ensures r.None? <==> LocationThrows(raw, parsers)
  {
    var loc := LocationObject(raw, parsers);
    match Property(loc, "lat")
    case None => None
    case Some(lat) => Some(Coord(FloatOrZero(lat, parsers), FloatOrZero(Property(loc, "lng").GetOr(Undefined), parsers)))
  }

  /**
   * The object whose `lat` and `lng` the location code reads: the column itself when it
   * is an object, or what a location string parses to when that is an object; None when
   * there is no such object.
   */
  function ParsedObject(raw: JsValue, parsers: Parsers): Option<map<string, JsValue>> {
    match raw
    case Obj(m) => Some(m)
    case Str(s) => if parsers.jsonParse(s).Some? && parsers.jsonParse(s).value.Obj? then Some(parsers.jsonParse(s).value.fields) else None
    case _ => None
  }

  /** What `parseFloat(o[key]) || 0` gives for a coordinate of the parsed object `o`. */
  predicate CoordinateIs(o: map<string, JsValue>, key: string, parsers: Parsers, x: real) {
    && (key !in o ==> x == 0.0)
    && (key in o && o[key].Num? ==> x == o[key].n)
    && (key in o && o[key].Str? ==> x == parsers.parseFloat(o[key].s).GetOr(0.0))
    && (key in o && !o[key].Num? && !o[key].Str? ==> x == 0.0)
  }

  /**
   * The location of a loaded peak: as written, except that a location string parsing to
   * `null` defaults to (0, 0) like every other malformed location.
   */
  function NormaliseLocation(raw: JsValue, parsers: Parsers): (r: Coord)
    ensures ParsedObject(raw, parsers).None? ==> r == Coord(0.0, 0.0)
    ensures ParsedObject(raw, parsers).Some? ==>
              && CoordinateIs(ParsedObject(raw, parsers).value, "lat", parsers, r.lat)
              && CoordinateIs(ParsedObject(raw, parsers).value, "lng", parsers, r.lng)
    ensures !LocationThrows(raw, parsers) ==> NormaliseLocationAsWritten(raw, parsers) == Some(r)
  {
    NormaliseLocationAsWritten(raw, parsers).GetOr(Coord(0.0, 0.0))
  }

  /** A location column with the text `{"lat":"10","lng":"20"}` becomes (10, 20). */
  lemma JsonLocationScenario(parsers: Parsers)
    requires parsers.jsonParse("{\"lat\":\"10\",\"lng\":\"20\"}") == Some(Obj(map["lat" := Str("10"), "lng" := Str("20")]))
    requires parsers.parseFloat("10") == Some(10.0) && parsers.parseFloat("20") == Some(20.0)
    ensures NormaliseLocation(Str("{\"lat\":\"10\",\"lng\":\"20\"}"), parsers) == Coord(10.0, 20.0)
  {
  }

  /** The row with its location already decided: the rest of the row mapping. */
  function PeakOfRow(row: PeakRow, location: Coord, parsers: Parsers): Peak {
    var difficulty := ParseIntOf(row.difficulty, parsers);
    Peak(
      id := row.id,
      name := row.name,
      city := Some(row.city.GetOr("")),
      province := Some(row.province.GetOr("")),
      location := location,
      altitude := ParseIntOf(row.altitude, parsers).GetOr(0),
      difficulty := if difficulty.Some? && difficulty.value != 0 then difficulty.value else 1,
      description := row.description,
      imageUrl := row.imageUrl)
  }

  /** One peak row as `loadPeaks` stores it (with the corrected location). */
  function NormalisePeak(row: PeakRow, parsers: Parsers): (p: Peak)
    ensures p.id == row.id && p.name == row.name && p.description == row.description && p.imageUrl == row.imageUrl
    ensures p.location == NormaliseLocation(row.location, parsers)
    ensures p.difficulty != 0
    ensures ParseIntOf(row.difficulty, parsers).None? ==> p.difficulty == 1
    ensures ParseIntOf(row.difficulty, parsers).Some? && ParseIntOf(row.difficulty, parsers).value != 0
            ==> p.difficulty == ParseIntOf(row.difficulty, parsers).value
    ensures ParseIntOf(row.altitude, parsers).None? ==> p.altitude == 0
    ensures ParseIntOf(row.altitude, parsers).Some? ==> p.altitude == ParseIntOf(row.altitude, parsers).value
    ensures p.province.Some? && p.city.Some?
    ensures row.province.None? ==> p.province == Some("")
    ensures row.province.Some? ==> p.province == row.province
    ensures row.city.None? ==> p.city == Some("")
    ensures row.city.Some? ==> p.city == row.city
  {
    PeakOfRow(row, NormaliseLocation(row.location, parsers), parsers)
  }

  /** The peaks `loadPeaks` stores for the rows it received. */
  function NormalisePeaks(rows: seq<PeakRow>, parsers: Parsers): (ps: seq<Peak>)
    ensures |ps| == |rows|
    ensures forall i :: 0 <= i < |rows| ==> ps[i] == NormalisePeak(rows[i], parsers)
  {
    if rows == [] then [] else [NormalisePeak(rows[0], parsers)] + NormalisePeaks(rows[1..], parsers)
  }

  /** Some row's location makes the code as written throw. */
  predicate SomeLocationThrows(rows: seq<PeakRow>, parsers: Parsers) {
    exists i :: 0 <= i < |rows| && LocationThrows(rows[i].location, parsers)
  }

  /** A list of rows has a throwing location exactly when its first row or its tail has one. */
  lemma SomeLocationThrowsCons(rows: seq<PeakRow>, parsers: Parsers)
    requires rows != []
    ensures SomeLocationThrows(rows, parsers)
            <==> LocationThrows(rows[0].location, parsers) || SomeLocationThrows(rows[1..], parsers)
  {
    if SomeLocationThrows(rows[1..], parsers) {
      var i :| 0 <= i < |rows[1..]| && LocationThrows(rows[1..][i].location, parsers);
      assert LocationThrows(rows[i + 1].location, parsers);
    }
    if SomeLocationThrows(rows, parsers) {
      var i :| 0 <= i < |rows| && LocationThrows(rows[i].location, parsers);
      if i > 0 {
        assert LocationThrows(rows[1..][i - 1].location, parsers);
      }
    }
  }

  /**
   * The row mapping as written: one throwing row aborts the whole load, which happens
   * exactly when some row's location string parses to `null`; otherwise it yields the
   * normalised peaks.
   */
  function NormalisePeaksAsWritten(rows: seq<PeakRow>, parsers: Parsers): (r: Option<seq<Peak>>)
    ensures r.None? <==> SomeLocationThrows(rows, parsers)
    ensures r.Some? ==> r.value == NormalisePeaks(rows, parsers)
  {
    if rows == [] then Some([])
    else
      SomeLocationThrowsCons(rows, parsers);
      match NormaliseLocationAsWritten(rows[0].location, parsers)
      case None => None
      case Some(loc) =>
        match NormalisePeaksAsWritten(rows[1..], parsers)
        case None => None
        case Some(rest) => Some([PeakOfRow(rows[0], loc, parsers)] + rest)
  }

  /** A run of `loadPeaks` in which one location column holds the text `null`: every row is lost. */
  lemma NullLocationDiscardsAllRows()
    ensures var parsers := Parsers(s => if s == "null" then Some(Null) else None, s => None, s => None);
            var good := PeakRow("p1", "Tai", None, None, Obj(map["lat" := Num(36.0), "lng" := Num(117.0)]),
                                Num(1545.0), Num(2.0), "", None);
            var bad := PeakRow("p2", "Hua", None, None, Str("null"), Num(2154.0), Num(3.0), "", None);
            && NormalisePeaksAsWritten([good, bad], parsers) == None
            && NormalisePeaks([good, bad], parsers)[1].location == Coord(0.0, 0.0)
            && |NormalisePeaks([good, bad], parsers)| == 2
  {
    var parsers := Parsers(s => if s == "null" then Some(Null) else None, s => None, s => None);
    var good := PeakRow("p1", "Tai", None, None, Obj(map["lat" := Num(36.0), "lng" := Num(117.0)]),
                        Num(1545.0), Num(2.0), "", None);
    var bad := PeakRow("p2", "Hua", None, None, Str("null"), Num(2154.0), Num(3.0), "", None);
    assert LocationThrows(bad.location, parsers);
    assert [good, bad][1] == bad;
  }

  // =================================================================================
  // loadCheckins and checkin: the two field conventions

  /** The in-memory check-in `loadCheckins` builds from a row. */
  function CheckinOfRow(row: CheckinRow): Checkin {
    Checkin(row.id, row.user_id, row.peak_id, row.checkin_time, row.location)
  }

  /** The row `checkin` inserts: reading it back yields the same check-in. */
  function RowOfCheckin(c: Checkin): (row: CheckinRow)
    ensures CheckinOfRow(row) == c
    ensures row.id == c.id && row.user_id == c.userId && row.peak_id == c.peakId
  {
    CheckinRow(c.id, c.userId, c.peakId, c.checkinTime, c.location)
  }

  /** The check-ins `loadCheckins` stores for the rows it received. */
  function CheckinsOfRows(rows: seq<CheckinRow>): (cs: seq<Checkin>)
    ensures |cs| == |rows|
    ensures forall i :: 0 <= i < |rows| ==> RowOfCheckin(cs[i]) == rows[i]
  {
    if rows == [] then [] else [CheckinOfRow(rows[0])] + CheckinsOfRows(rows[1..])
  }

  /** The client-side id of a new check-in, from the clock reading in milliseconds. */
  function CheckinId(stamp: nat): (id: string)
    ensures |id| > 8 && id[..8] == "checkin-"
    ensures forall i :: 8 <= i < |id| ==> '0' <= id[i] <= '9'
    ensures stamp > 0 ==> id[8] != '0'
  {
    "checkin-" + Decimal(stamp)
  }

  /** Two check-ins get the same id exactly when they read the same millisecond. */
  lemma CheckinIdInjective(a: nat, b: nat)
    ensures CheckinId(a) == CheckinId(b) <==> a == b
  {
    if CheckinId(a) == CheckinId(b) {
      assert CheckinId(a)[8..] == Decimal(a) && CheckinId(b)[8..] == Decimal(b);
      DecimalInjective(a, b);
    }
  }

  // =================================================================================
  // deleteCheckin: findIndex and splice

  /** `findIndex` by id: the first position holding the id, or -1. */
  function FindIndexById(cs: seq<Checkin>, id: string): (k: int)
    ensures -1 <= k < |cs|
    ensures k == -1 <==> forall c :: c in cs ==> c.id != id
    ensures k >= 0 ==> cs[k].id == id && forall j :: 0 <= j < k ==> cs[j].id != id
  {
    if cs == [] then -1
    else if cs[0].id == id then 0
    else
      var k := FindIndexById(cs[1..], id);
      assert cs == [cs[0]] + cs[1..];
      if k == -1 then -1 else k + 1
  }

  /** The check-ins after a successful delete of `id`: the first entry with that id is gone. */
  function RemoveFirstById(cs: seq<Checkin>, id: string): (r: seq<Checkin>)
    ensures (forall c :: c in cs ==> c.id != id) ==> r == cs
    ensures (exists c :: c in cs && c.id == id) ==>
              |r| == |cs| - 1 &&
              exists k :: 0 <= k < |cs| && cs[k].id == id && (forall j :: 0 <= j < k ==> cs[j].id != id)
                          && r == cs[..k] + cs[k + 1..]
  {
    var k := FindIndexById(cs, id);
    if k == -1 then cs else cs[..k] + cs[k + 1..]
  }

  /** A check-in whose id is new, deleted right after being added, leaves the list as it was. */
  lemma CheckinThenDeleteRestores(cs: seq<Checkin>, c: Checkin)
    requires forall x :: x in cs ==> x.id != c.id
    ensures RemoveFirstById(cs + [c], c.id) == cs
  {
    var all := cs + [c];
    var k := FindIndexById(all, c.id);
    assert all[|cs|] == c;
    assert k == |cs|;
    assert all[..k] == cs;
  }

  /**
   * When an older check-in already holds the id (two check-ins in the same millisecond),
   * deleting it removes the older one and the new one stays.
   */
  lemma CheckinThenDeleteAfterCollision(cs: seq<Checkin>, c: Checkin, k: nat)
    requires k < |cs| && cs[k].id == c.id && forall j :: 0 <= j < k ==> cs[j].id != c.id
    ensures RemoveFirstById(cs + [c], c.id) == cs[..k] + cs[k + 1..] + [c]
  {
    var all := cs + [c];
    var f := FindIndexById(all, c.id);
    assert all[k] == cs[k];
    assert f == k;
    assert all[..k] == cs[..k];
    assert all[k + 1..] == cs[k + 1..] + [c];
  }

  // =================================================================================
  // filteredPeaks

  /** The three filter refs of the store. */
  datatype Filters = Filters(searchQuery: string, provinceFilter: string, cityFilter: string)

  const NoFilters: Filters := Filters("", "", "")

  /** An optional province or city passes a filter: the filter is empty, or the field is present, non-empty and contains it, ignoring case. */
  predicate FieldMatches(field: Option<string>, filter: string) {
    filter == "" || (field.Some? && field.value != "" && Contains(Lower(field.value), Lower(filter)))
  }

  /** A peak passes all three filters (they are combined with AND). */
  predicate Matches(p: Peak, f: Filters) {
    && (f.searchQuery == "" || Contains(Lower(p.name), Lower(f.searchQuery)))
    && FieldMatches(p.province, f.provinceFilter)
    && FieldMatches(p.city, f.cityFilter)
  }

  /** `filteredPeaks`: the peaks that pass the filters. */
  function FilteredPeaks(peaks: seq<Peak>, f: Filters): (r: seq<Peak>)
    ensures |r| <= |peaks|
    ensures forall p :: p in r <==> p in peaks && Matches(p, f)
    ensures forall p :: multiset(r)[p] == if Matches(p, f) then multiset(peaks)[p] else 0
    ensures f.provinceFilter != "" ==> forall p :: p in r ==> p.province.Some? && p.province.value != ""
    ensures f.cityFilter != "" ==> forall p :: p in r ==> p.city.Some? && p.city.value != ""
  {
    if peaks == [] then []
    else
      var rest := FilteredPeaks(peaks[1..], f);
      assert peaks == [peaks[0]] + peaks[1..];
      if Matches(peaks[0], f) then [peaks[0]] + rest else rest
  }

  /** Filtering a list with a first element: that element is kept exactly when it passes. */
  lemma FilteredPeaksCons(x: Peak, s: seq<Peak>, f: Filters)
    ensures FilteredPeaks([x] + s, f) == if Matches(x, f) then [x] + FilteredPeaks(s, f) else FilteredPeaks(s, f)
  {
    var xs := [x] + s;
    assert xs[0] == x && xs[1..] == s;
  }

  /** Putting an element in front commutes with appending. */
  lemma ConsAppend<T>(x: T, s: seq<T>, t: seq<T>)
    ensures [x] + (s + t) == ([x] + s) + t
  {
  }

  /** Filtering a concatenation filters each part. */
  lemma {:induction false} FilteredPeaksAppend(a: seq<Peak>, b: seq<Peak>, f: Filters)
    ensures FilteredPeaks(a + b, f) == FilteredPeaks(a, f) + FilteredPeaks(b, f)
  {
    if a == [] {
      assert a + b == b;
    } else {
      var x, t := a[0], a[1..];
      assert a == [x] + t;
      assert a + b == [x] + (t + b);
      FilteredPeaksAppend(t, b, f);
      FilteredPeaksCons(x, t + b, f);
      FilteredPeaksCons(x, t, f);
      var ft, fb := FilteredPeaks(t, f), FilteredPeaks(b, f);
      ConsAppend(x, ft, fb);
    }
  }

  /** `xs` is `ys` with some elements left out, the rest in their original order. */
  predicate IsSubsequence<T(==)>(xs: seq<T>, ys: seq<T>)
    decreases |ys|
  {
    if xs == [] then true
    else if ys == [] then false
    else (xs[0] == ys[0] && IsSubsequence(xs[1..], ys[1..])) || IsSubsequence(xs, ys[1..])
  }

  /** Filtering keeps the peaks' relative order. */
  lemma {:induction false} FilteredIsSubsequence(peaks: seq<Peak>, f: Filters)
    ensures IsSubsequence(FilteredPeaks(peaks, f), peaks)
  {
    if peaks != [] {
      FilteredIsSubsequence(peaks[1..], f);
      var rest := FilteredPeaks(peaks[1..], f);
      if Matches(peaks[0], f) {
        assert FilteredPeaks(peaks, f) == [peaks[0]] + rest;
        assert ([peaks[0]] + rest)[1..] == rest;
      } else {
        assert FilteredPeaks(peaks, f) == rest;
      }
    }
  }

  /** With all three filters empty, `filteredPeaks` is `peaks`, same order. */
  lemma {:induction false} NoFiltersKeepsAll(peaks: seq<Peak>)
    ensures FilteredPeaks(peaks, NoFilters) == peaks
  {
    if peaks != [] {
      NoFiltersKeepsAll(peaks[1..]);
      assert Matches(peaks[0], NoFilters);
      assert peaks == [peaks[0]] + peaks[1..];
    }
  }

  /** The filters ignore letter case: lower-casing all three changes nothing. */
  lemma {:induction false} FiltersIgnoreCase(peaks: seq<Peak>, f: Filters)
    ensures FilteredPeaks(peaks, Filters(Lower(f.searchQuery), Lower(f.provinceFilter), Lower(f.cityFilter)))
            == FilteredPeaks(peaks, f)
  {
    var g := Filters(Lower(f.searchQuery), Lower(f.provinceFilter), Lower(f.cityFilter));
    if peaks != [] {
      FiltersIgnoreCase(peaks[1..], f);
      LowerIdempotent(f.searchQuery);
      LowerIdempotent(f.provinceFilter);
      LowerIdempotent(f.cityFilter);
      assert Matches(peaks[0], g) == Matches(peaks[0], f);
    }
  }

  // =================================================================================
  // peaksWithCheckin

  /** A check-in counts for a peak: it is for that peak and by the current user (with no user, none does). */
  predicate IsUsersCheckinFor(c: Checkin, peakId: string, user: Option<User>) {
    c.peakId == peakId && user.Some? && c.userId == user.value.id
  }

  /** The current user's check-ins on one peak, in list order. */
  function UserCheckins(cs: seq<Checkin>, peakId: string, user: Option<User>): (r: seq<Checkin>)
    ensures |r| <= |cs|
    ensures forall c :: c in r <==> c in cs && IsUsersCheckinFor(c, peakId, user)
  {
    if cs == [] then []
    else
      var rest := UserCheckins(cs[1..], peakId, user);
      assert cs == [cs[0]] + cs[1..];
      if IsUsersCheckinFor(cs[0], peakId, user) then [cs[0]] + rest else rest
  }

  lemma {:induction false} UserCheckinsAppend(a: seq<Checkin>, b: seq<Checkin>, peakId: string, user: Option<User>)
    ensures UserCheckins(a + b, peakId, user) == UserCheckins(a, peakId, user) + UserCheckins(b, peakId, user)
  {
    if a != [] {
      UserCheckinsAppend(a[1..], b, peakId, user);
      assert (a + b)[1..] == a[1..] + b;
      assert (a + b)[0] == a[0];
    } else {
      assert a + b == b;
    }
  }

  /**
   * The check-in the `reduce` settles on: a latest one, and the first of those, since a
   * later entry replaces the running one only when strictly later.
   */
  function LatestIndex(cs: seq<Checkin>): (k: nat)
    requires cs != []
    ensures k < |cs|
    ensures forall j :: 0 <= j < |cs| ==> cs[j].checkinTime <= cs[k].checkinTime
    ensures forall j :: 0 <= j < k ==> cs[j].checkinTime < cs[k].checkinTime
    decreases |cs|
  {
    if |cs| == 1 then 0
    else
      var k := LatestIndex(cs[..|cs| - 1]);
      if cs[|cs| - 1].checkinTime > cs[k].checkinTime then |cs| - 1 else k
  }

  /** One entry of `peaksWithCheckin`. */
  function PeakWithCheckinOf(p: Peak, cs: seq<Checkin>, user: Option<User>): (r: PeakWithCheckin)
    ensures r.peak == p
    ensures r.checkinCount == |UserCheckins(cs, p.id, user)|
    ensures r.checkedIn <==> r.checkinCount > 0
    ensures r.checkedIn <==> exists c :: c in cs && IsUsersCheckinFor(c, p.id, user)
    ensures r.checkinTime == r.lastCheckinTime
    ensures r.checkinTime.None? <==> r.checkinCount == 0
    ensures r.checkinTime.Some? ==>
              (exists c :: c in cs && IsUsersCheckinFor(c, p.id, user) && c.checkinTime == r.checkinTime.value)
              && forall c :: c in cs && IsUsersCheckinFor(c, p.id, user) ==> c.checkinTime <= r.checkinTime.value
  {
    var mine := UserCheckins(cs, p.id, user);
    var latest := if mine != [] then Some(mine[LatestIndex(mine)].checkinTime) else None;
    assert mine != [] ==> mine[0] in mine;
    assert mine != [] ==> forall c :: c in mine ==> c.checkinTime <= latest.value by {
      if mine != [] {
        var k := LatestIndex(mine);
        forall c | c in mine
          ensures c.checkinTime <= mine[k].checkinTime
        {
          var j :| 0 <= j < |mine| && mine[j] == c;
        }
      }
    }
    PeakWithCheckin(p, |mine| > 0, latest, |mine|, latest)
  }

  /** `filteredPeaks.map(...)` over a list of peaks. */
  function Summaries(ps: seq<Peak>, cs: seq<Checkin>, user: Option<User>): (r: seq<PeakWithCheckin>)
    ensures |r| == |ps|
    ensures forall i :: 0 <= i < |ps| ==> r[i].peak == ps[i] && r[i] == PeakWithCheckinOf(ps[i], cs, user)
  {
    if ps == [] then [] else [PeakWithCheckinOf(ps[0], cs, user)] + Summaries(ps[1..], cs, user)
  }

  /** `peaksWithCheckin`: one summary per filtered peak, same length and order. */
  function PeaksWithCheckin(peaks: seq<Peak>, cs: seq<Checkin>, user: Option<User>, f: Filters): (r: seq<PeakWithCheckin>)
    ensures |r| == |FilteredPeaks(peaks, f)| <= |peaks|
    ensures forall i :: 0 <= i < |r| ==> r[i].peak == FilteredPeaks(peaks, f)[i]
  {
    Summaries(FilteredPeaks(peaks, f), cs, user)
  }

  /** Adding a check-in raises one peak's count by one (when it is the user's, for that peak) and leaves the others. */
  lemma AppendCheckinCounts(cs: seq<Checkin>, c: Checkin, p: Peak, user: Option<User>)
    ensures PeakWithCheckinOf(p, cs + [c], user).checkinCount
            == PeakWithCheckinOf(p, cs, user).checkinCount + (if IsUsersCheckinFor(c, p.id, user) then 1 else 0)
    ensures IsUsersCheckinFor(c, p.id, user) && (forall x :: x in cs && IsUsersCheckinFor(x, p.id, user) ==> x.checkinTime <= c.checkinTime)
            ==> PeakWithCheckinOf(p, cs + [c], user).lastCheckinTime == Some(c.checkinTime)
  {
    UserCheckinsAppend(cs, [c], p.id, user);
    assert UserCheckins([c], p.id, user) == if IsUsersCheckinFor(c, p.id, user) then [c] else [];
    assert c in cs + [c];
  }

  /** Removing the first entry with an id lowers the count of that entry's peak by one, if it was the user's. */
  lemma RemoveCheckinCounts(cs: seq<Checkin>, id: string, p: Peak, user: Option<User>)
    requires exists c :: c in cs && c.id == id
    ensures var k := FindIndexById(cs, id);
            PeakWithCheckinOf(p, RemoveFirstById(cs, id), user).checkinCount
            == PeakWithCheckinOf(p, cs, user).checkinCount - (if IsUsersCheckinFor(cs[k], p.id, user) then 1 else 0)
  {
    var k := FindIndexById(cs, id);
    assert cs == cs[..k] + [cs[k]] + cs[k + 1..];
    UserCheckinsAppend(cs[..k] + [cs[k]], cs[k + 1..], p.id, user);
    UserCheckinsAppend(cs[..k], [cs[k]], p.id, user);
    UserCheckinsAppend(cs[..k], cs[k + 1..], p.id, user);
    assert UserCheckins([cs[k]], p.id, user) == if IsUsersCheckinFor(cs[k], p.id, user) then [cs[k]] else [];
  }

  // =================================================================================
  // checkedInPeaks and stats

  /** `checkedInPeaks`: the summaries with at least one check-in, in order. */
  function CheckedInPeaks(pw: seq<PeakWithCheckin>): (r: seq<PeakWithCheckin>)
    ensures |r| <= |pw|
    ensures forall x :: x in r <==> x in pw && x.checkedIn
    ensures forall x :: multiset(r)[x] == if x.checkedIn then multiset(pw)[x] else 0
  {
    if pw == [] then []
    else
      var rest := CheckedInPeaks(pw[1..]);
      assert pw == [pw[0]] + pw[1..];
      if pw[0].checkedIn then [pw[0]] + rest else rest
  }

  /** Checked-in summaries of a list with a first element: that element is kept exactly when checked in. */
  lemma CheckedInPeaksCons(x: PeakWithCheckin, s: seq<PeakWithCheckin>)
    ensures CheckedInPeaks([x] + s) == if x.checkedIn then [x] + CheckedInPeaks(s) else CheckedInPeaks(s)
  {
    var xs := [x] + s;
    assert xs[0] == x && xs[1..] == s;
  }

  /** The checked-in summaries of a concatenation are those of each part, concatenated. */
  lemma {:induction false} CheckedInPeaksAppend(a: seq<PeakWithCheckin>, b: seq<PeakWithCheckin>)
    ensures CheckedInPeaks(a + b) == CheckedInPeaks(a) + CheckedInPeaks(b)
  {
    if a == [] {
      assert a + b == b;
    } else {
      var x, t := a[0], a[1..];
      assert a == [x] + t;
      assert a + b == [x] + (t + b);
      CheckedInPeaksAppend(t, b);
      CheckedInPeaksCons(x, t + b);
      CheckedInPeaksCons(x, t);
      ConsAppend(x, CheckedInPeaks(t), CheckedInPeaks(b));
    }
  }

  /** The checked-in summaries keep their relative order. */
  lemma {:induction false} CheckedInIsSubsequence(pw: seq<PeakWithCheckin>)
    ensures IsSubsequence(CheckedInPeaks(pw), pw)
  {
    if pw != [] {
      CheckedInIsSubsequence(pw[1..]);
      var rest := CheckedInPeaks(pw[1..]);
      if pw[0].checkedIn {
        assert CheckedInPeaks(pw) == [pw[0]] + rest;
        assert ([pw[0]] + rest)[1..] == rest;
      } else {
        assert CheckedInPeaks(pw) == rest;
      }
    }
  }

  function SumAltitude(pw: seq<PeakWithCheckin>): int {
    if pw == [] then 0 else pw[0].peak.altitude + SumAltitude(pw[1..])
  }

  /** Reference definition: the number of peaks on which the user has a check-in. */
  function VisitedCount(ps: seq<Peak>, cs: seq<Checkin>, user: Option<User>): nat {
    if ps == [] then 0
    else (if exists c :: c in cs && IsUsersCheckinFor(c, ps[0].id, user) then 1 else 0)
         + VisitedCount(ps[1..], cs, user)
  }

  /** Reference definition: the altitudes of the peaks on which the user has a check-in, added up. */
  function AltitudeOfVisited(ps: seq<Peak>, cs: seq<Checkin>, user: Option<User>): int {
    if ps == [] then 0
    else (if exists c :: c in cs && IsUsersCheckinFor(c, ps[0].id, user) then ps[0].altitude else 0)
         + AltitudeOfVisited(ps[1..], cs, user)
  }

  /** The checked-in summaries are as many as the visited peaks, and their altitudes add up to those peaks' altitudes. */
  lemma {:induction false} CheckedInTotals(ps: seq<Peak>, cs: seq<Checkin>, user: Option<User>)
    ensures |CheckedInPeaks(Summaries(ps, cs, user))| == VisitedCount(ps, cs, user)
    ensures SumAltitude(CheckedInPeaks(Summaries(ps, cs, user))) == AltitudeOfVisited(ps, cs, user)
  {
    if ps != [] {
      CheckedInTotals(ps[1..], cs, user);
      var s := Summaries(ps, cs, user);
      assert s == [PeakWithCheckinOf(ps[0], cs, user)] + Summaries(ps[1..], cs, user);
      assert s[1..] == Summaries(ps[1..], cs, user);
    }
  }

  datatype Stats = Stats(totalPeaks: nat, checkedInCount: nat, totalAltitude: int, checkinRate: real)

  /** `checkinRate`: the checked-in share of all peaks, in percent, and 0 when there are no peaks. */
  function CheckinRate(part: nat, total: nat): (r: real)
    ensures total == 0 ==> r == 0.0
    ensures part <= total ==> 0.0 <= r <= 100.0
    ensures 0 < total && part == total ==> r == 100.0
  {
    if total > 0 then
      assert part <= total ==> part as real / total as real <= 1.0;
      (part as real / total as real) * 100.0
    else 0.0
  }

  /** `stats` */
  function StatsOf(peaks: seq<Peak>, cs: seq<Checkin>, user: Option<User>, f: Filters): (s: Stats)
    ensures s.totalPeaks == |peaks|
    ensures s.checkedInCount <= |FilteredPeaks(peaks, f)| <= s.totalPeaks
    ensures s.checkedInCount == VisitedCount(FilteredPeaks(peaks, f), cs, user)
    ensures s.totalAltitude == AltitudeOfVisited(FilteredPeaks(peaks, f), cs, user)
    ensures s.totalPeaks == 0 ==> s.checkinRate == 0.0
    ensures 0.0 <= s.checkinRate <= 100.0
  {
    var checked := CheckedInPeaks(PeaksWithCheckin(peaks, cs, user, f));
    var total := |peaks|;
    CheckedInTotals(FilteredPeaks(peaks, f), cs, user);
    Stats(total, |checked|, SumAltitude(checked), CheckinRate(|checked|, total))
  }

  // =================================================================================
  // provinces and cities

  /** The non-empty provinces of the peaks, in peak order, repeats included. */
  function ProvinceValues(peaks: seq<Peak>): (r: seq<string>)
    ensures forall s :: s in r <==> s != "" && exists p :: p in peaks && p.province == Some(s)
  {
    if peaks == [] then []
    else
      var rest := ProvinceValues(peaks[1..]);
      assert peaks == [peaks[0]] + peaks[1..];
      if peaks[0].province.Some? && peaks[0].province.value != "" then [peaks[0].province.value] + rest else rest
  }

  /** `provinces`: every non-empty province of any peak, once each, sorted. */
  function Provinces(peaks: seq<Peak>): (r: seq<string>)
    ensures StrictlySorted(r)
    ensures "" !in r
    ensures forall s :: s in r <==> s != "" && exists p :: p in peaks && p.province == Some(s)
  {
    SortedUnique(ProvinceValues(peaks))
  }

  /** A peak's city is offered: it is non-empty and, when a province is selected, the peak's province is exactly that one. */
  predicate CityOffered(p: Peak, provinceFilter: string) {
    p.city.Some? && p.city.value != "" && (provinceFilter == "" || p.province == Some(provinceFilter))
  }

  function CityValues(peaks: seq<Peak>, provinceFilter: string): (r: seq<string>)
    ensures forall s :: s in r <==> exists p :: p in peaks && CityOffered(p, provinceFilter) && p.city == Some(s)
  {
    if peaks == [] then []
    else
      var rest := CityValues(peaks[1..], provinceFilter);
      assert peaks == [peaks[0]] + peaks[1..];
      if CityOffered(peaks[0], provinceFilter) then [peaks[0].city.value] + rest else rest
  }

  /** `cities`: the offered cities, once each, sorted. */
  function Cities(peaks: seq<Peak>, provinceFilter: string): (r: seq<string>)
    ensures StrictlySorted(r)
    ensures "" !in r
    ensures forall s :: s in r <==> exists p :: p in peaks && CityOffered(p, provinceFilter) && p.city == Some(s)
    ensures provinceFilter != "" ==>
              forall s :: s in r ==> exists p :: p in peaks && p.province == Some(provinceFilter) && p.city == Some(s)
  {
    SortedUnique(CityValues(peaks, provinceFilter))
  }
}
