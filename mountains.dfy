/**
 * The mountains store's state and actions (src/store/mountains.ts). The computed views
 * are the functions of module MountainViews applied to this state. Every backend call is
 * a `Reply` argument; the clock readings `checkin` takes are arguments too.
 */
module Mountains {
  import opened Wrappers
  import opened Types
  import opened Backend
  import opened MountainViews
  import Auth

  class MountainsStore {
    /** The session store whose `user` scopes check-ins. */
    const auth: Auth.AuthStore
    var peaks: seq<Peak>
    var checkins: seq<Checkin>
    var selectedPeak: Option<Peak>
    var isLoading: bool
    var searchQuery: string
    var cityFilter: string
    var provinceFilter: string
    /** The closure flag that makes `init` run once. */
    var initialized: bool

    constructor (auth: Auth.AuthStore)
      ensures this.auth == auth
      ensures peaks == [] && checkins == [] && selectedPeak == None && !isLoading && !initialized
      ensures searchQuery == "" && cityFilter == "" && provinceFilter == ""
    {
      this.auth := auth;
      peaks := [];
      checkins := [];
      selectedPeak := None;
      isLoading := false;
      searchQuery := "";
      cityFilter := "";
      provinceFilter := "";
      initialized := false;
    }

    function CurrentFilters(): Filters
      reads this
    {
      Filters(searchQuery, provinceFilter, cityFilter)
    }

    /**
     * `loadPeaks`, given the reply to the select on `peaks`: the normalised rows replace
     * `peaks` on success; on failure `peaks` stays. Loading ends in every case.
     */
    method LoadPeaks(reply: Reply<seq<PeakRow>>, parsers: Parsers)
      modifies this`peaks, this`isLoading
      ensures !isLoading
      ensures reply.Ok? ==> peaks == NormalisePeaks(reply.data, parsers)
      ensures !reply.Ok? ==> peaks == old(peaks)
    {
      isLoading := true;
      if reply.Ok? {
        peaks := NormalisePeaks(reply.data, parsers);
      }
      isLoading := false;
    }

    /**
     * `loadCheckins`, given the reply to the select of the user's rows on `checkins`.
     * Without a user nothing happens.
     */
    method LoadCheckins(reply: Reply<seq<CheckinRow>>)
      modifies this`checkins, this`isLoading
      ensures auth.user.None? ==> checkins == old(checkins) && isLoading == old(isLoading)
      ensures auth.user.Some? ==> !isLoading
      ensures auth.user.Some? && reply.Ok? ==> checkins == CheckinsOfRows(reply.data)
      ensures !reply.Ok? ==> checkins == old(checkins)
    {
      if auth.user.None? {
        return;
      }
      isLoading := true;
      if reply.Ok? {
        checkins := CheckinsOfRows(reply.data);
      }
      isLoading := false;
    }

    /**
     * `checkin`, given the clock reading for the id (`stamp`, in milliseconds), the time
     * of the check-in and the reply to the insert. Returns the row sent to the backend.
     * The new check-in is appended only after a successful insert.
     */
    method Checkin(peakId: string, location: Coord, stamp: nat, now: Time, insert: Reply<()>)
      returns (written: Option<CheckinRow>)
      modifies this`checkins
      ensures auth.user.None? ==> written == None && checkins == old(checkins)
      ensures auth.user.Some? ==>
                var c := Types.Checkin(CheckinId(stamp), auth.user.value.id, peakId, now, location);
                && written == Some(RowOfCheckin(c))
                && checkins == (if insert.Ok? then old(checkins) + [c] else old(checkins))
    {
      if auth.user.None? {
        return None;
      }
      var c := Types.Checkin(CheckinId(stamp), auth.user.value.id, peakId, now, location);
      written := Some(RowOfCheckin(c));
      if insert.Ok? {
        checkins := checkins + [c];
      }
    }

    /**
     * `deleteCheckin`, given the reply to the delete by id. After a successful delete the
     * first local entry with that id is spliced out; otherwise nothing changes.
     */
    method DeleteCheckin(checkinId: string, reply: Reply<()>)
      modifies this`checkins
      ensures auth.user.Some? && reply.Ok? ==> checkins == RemoveFirstById(old(checkins), checkinId)
      ensures auth.user.None? || !reply.Ok? ==> checkins == old(checkins)
    {
      if auth.user.None? || !reply.Ok? {
        return;
      }
      var index := FindIndexById(checkins, checkinId);
      if index != -1 {
        checkins := checkins[..index] + checkins[index + 1..];
      }
    }

    method SelectPeak(peak: Peak)
      modifies this`selectedPeak
      ensures selectedPeak == Some(peak)
    {
      selectedPeak := Some(peak);
    }

    method ClearSelectedPeak()
      modifies this`selectedPeak
      ensures selectedPeak == None
    {
      selectedPeak := None;
    }

    /**
     * `init`: on its first call, both loads (run one after the other here); on later
     * calls nothing.
     */
    method Init(peaksReply: Reply<seq<PeakRow>>, parsers: Parsers, checkinsReply: Reply<seq<CheckinRow>>)
      modifies this`initialized, this`peaks, this`checkins, this`isLoading
      ensures old(initialized) ==> unchanged(this)
      ensures !old(initialized) ==> initialized && !isLoading
      ensures !old(initialized) ==> peaks == (if peaksReply.Ok? then NormalisePeaks(peaksReply.data, parsers) else old(peaks))
      ensures !old(initialized) ==>
                checkins == (if auth.user.Some? && checkinsReply.Ok? then CheckinsOfRows(checkinsReply.data) else old(checkins))
    {
      if initialized {
        return;
      }
      initialized := true;
      LoadPeaks(peaksReply, parsers);
      LoadCheckins(checkinsReply);
    }

    method SetSearchQuery(query: string)
      modifies this`searchQuery
      ensures searchQuery == query
    {
      searchQuery := query;
    }

    /** Choosing a province also clears the city, whatever it was. */
    method SetProvinceFilter(province: string)
      modifies this`provinceFilter, this`cityFilter
      ensures provinceFilter == province && cityFilter == ""
    {
      provinceFilter := province;
      cityFilter := "";
    }

    method SetCityFilter(city: string)
      modifies this`cityFilter
      ensures cityFilter == city
    {
      cityFilter := city;
    }

    /** Clears all three filters, after which `filteredPeaks` is `peaks` again. */
    method ResetFilters()
      modifies this`searchQuery, this`provinceFilter, this`cityFilter
      ensures searchQuery == "" && provinceFilter == "" && cityFilter == ""
      ensures FilteredPeaks(peaks, CurrentFilters()) == peaks
    {
      searchQuery := "";
      provinceFilter := "";
      cityFilter := "";
      NoFiltersKeepsAll(peaks);
    }
  }
}
