/** The state of the food-truck page: the shared query inputs, the fetched
    records and the two derived result lists, recomputed after every change
    of an input (the page's two filtering effects), and the choice of the
    list to display. */
module Page {
  import opened Schema
  import opened Ranking
  import opened Filters

  /** The view option that selects the text list; every other value selects
      the geolocation list. */
  const NameOrAddress: string := "nameOrAddress"
  const Geolocation: string := "Geolocation"

  datatype Listing =
    | ByNameOrAddress(trucks: seq<FoodTruck>)
    | ByGeolocation(entries: seq<Ranked<FoodTruck>>)

  class QueryController {
    /** The haversine distance the geolocation list is ranked by. */
    const distance: Distance

    // What the data hook reports.
    var loading: bool
    var fetchedFoodTrucks: seq<FoodTruck>

    // The shared query inputs.
    var statusFilter: seq<string>
    var nameOrAddressQuery: string
    var geolocationQuery: seq<real>
    var viewOption: string

    // The derived lists.
    var filteredByNameOrAddress: seq<FoodTruck>
    var filteredByGeolocation: seq<Ranked<FoodTruck>>

    /** Both derived lists are up to date with the inputs; note that both
        read the one shared status filter. */
    ghost predicate Valid()
      reads this
    {
      && filteredByNameOrAddress == FilterByNameOrAddress(fetchedFoodTrucks, nameOrAddressQuery, statusFilter)
      && filteredByGeolocation == FilterByGeolocation(fetchedFoodTrucks, geolocationQuery, statusFilter, distance)
    }

    /** The page as first rendered, after its effects have run once. */
    constructor (distance: Distance)
      ensures Valid() && this.distance == distance
      ensures loading && fetchedFoodTrucks == []
      ensures statusFilter == [] && nameOrAddressQuery == "" && geolocationQuery == []
      ensures viewOption == NameOrAddress
      ensures filteredByNameOrAddress == [] && filteredByGeolocation == []
    {
      this.distance := distance;
      loading := true;
      fetchedFoodTrucks := [];
      statusFilter := [];
      nameOrAddressQuery := "";
      geolocationQuery := [];
      viewOption := NameOrAddress;
      filteredByNameOrAddress := [];
      filteredByGeolocation := [];
    }

    /** The two effects, run after any input changed. */
    method Recompute()
      modifies this`filteredByNameOrAddress, this`filteredByGeolocation
      ensures Valid()
    {
      filteredByNameOrAddress := FilterByNameOrAddress(fetchedFoodTrucks, nameOrAddressQuery, statusFilter);
      filteredByGeolocation := FilterByGeolocation(fetchedFoodTrucks, geolocationQuery, statusFilter, distance);
    }

    /** The data hook delivered a new state (records and loading flag). */
    method ReceiveFetchState(trucks: seq<FoodTruck>, isLoading: bool)
      modifies this
      ensures Valid()
      ensures fetchedFoodTrucks == trucks && loading == isLoading
      ensures unchanged(this`statusFilter, this`nameOrAddressQuery, this`geolocationQuery, this`viewOption)
    {
      fetchedFoodTrucks, loading := trucks, isLoading;
      Recompute();
    }

    method SetStatusFilter(filter: seq<string>)
      modifies this
      ensures Valid()
      ensures statusFilter == filter
      ensures unchanged(this`loading, this`fetchedFoodTrucks, this`nameOrAddressQuery, this`geolocationQuery, this`viewOption)
    {
      statusFilter := filter;
      Recompute();
    }

    method SetNameOrAddressQuery(query: string)
      modifies this
      ensures Valid()
      ensures nameOrAddressQuery == query
      ensures unchanged(this`loading, this`fetchedFoodTrucks, this`statusFilter, this`geolocationQuery, this`viewOption)
    {
      nameOrAddressQuery := query;
      Recompute();
    }

    /** A query that is not a latitude/longitude pair, such as the empty
        query after a clear, empties the geolocation list at once. */
    method SetGeolocationQuery(query: seq<real>)
      modifies this
      ensures Valid()
      ensures geolocationQuery == query
      ensures |query| != 2 ==> filteredByGeolocation == []
      ensures unchanged(this`loading, this`fetchedFoodTrucks, this`statusFilter, this`nameOrAddressQuery, this`viewOption)
    {
      geolocationQuery := query;
      Recompute();
    }

    method SetViewOption(option: string)
      modifies this
      ensures Valid()
      ensures viewOption == option
      ensures unchanged(this`loading, this`fetchedFoodTrucks, this`statusFilter, this`nameOrAddressQuery, this`geolocationQuery)
    {
      viewOption := option;
      Recompute();
    }

    /** What the list area shows: nothing (the spinners) while loading,
        otherwise the text list exactly when the view option is
        "nameOrAddress" and the geolocation list for any other value. */
    method Displayed() returns (shown: Option<Listing>)
      requires Valid()
      ensures shown.None? <==> loading
      ensures !loading && viewOption == NameOrAddress ==>
                shown == Some(ByNameOrAddress(FilterByNameOrAddress(fetchedFoodTrucks, nameOrAddressQuery, statusFilter)))
      ensures !loading && viewOption != NameOrAddress ==>
                shown == Some(ByGeolocation(FilterByGeolocation(fetchedFoodTrucks, geolocationQuery, statusFilter, distance)))
    {
      if loading {
        shown := None;
      } else if viewOption == NameOrAddress {
        shown := Some(ByNameOrAddress(filteredByNameOrAddress));
      } else {
        shown := Some(ByGeolocation(filteredByGeolocation));
      }
    }
  }
}
