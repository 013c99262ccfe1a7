/** The sidebar's per-mode status-filter memory: one remembered filter per
    search mode, a once-only default of ["APPROVED"] on the first entry into
    geolocation mode, and the push of the active mode's filter into the
    page's shared status filter. */
module SidebarState {
  import opened Page
  import StatusFilter

  /** The filter the geolocation mode starts from on its first visit. */
  const DefaultGeolocationFilter: seq<string> := ["APPROVED"]

  class Sidebar {
    /** The page whose view option it reads and whose status filter it sets. */
    const app: QueryController
    var hasVisitedGeolocation: bool
    var nameOrAddressFilter: seq<string>
    var geolocationFilter: seq<string>

    /** The remembered filter of the mode the page shows. */
    function ActiveFilter(): (f: seq<string>)
      reads this, app
      ensures app.viewOption == NameOrAddress ==> f == nameOrAddressFilter
      ensures app.viewOption != NameOrAddress ==> f == geolocationFilter
    {
      if app.viewOption == NameOrAddress then nameOrAddressFilter else geolocationFilter
    }

    /** The page is consistent, the shared filter is the active mode's
        filter, and geolocation mode is never shown unvisited. */
    ghost predicate Valid()
      reads this, app
    {
      && app.Valid()
      && (app.viewOption != NameOrAddress ==> hasVisitedGeolocation)
      && app.statusFilter == ActiveFilter()
    }

    /** Mounting: both filters empty and the flag down, then the sync effect
        runs once for the current view. */
    constructor (app: QueryController)
      requires app.Valid()
      modifies app
      ensures this.app == app && Valid()
      ensures nameOrAddressFilter == []
      ensures app.viewOption == NameOrAddress ==> !hasVisitedGeolocation && geolocationFilter == [] && app.statusFilter == []
      ensures app.viewOption != NameOrAddress ==>
                hasVisitedGeolocation && geolocationFilter == DefaultGeolocationFilter &&
                app.statusFilter == DefaultGeolocationFilter
      ensures app.viewOption == old(app.viewOption)
      ensures unchanged(app`loading, app`fetchedFoodTrucks, app`nameOrAddressQuery, app`geolocationQuery)
    {
      this.app := app;
      hasVisitedGeolocation := false;
      nameOrAddressFilter := [];
      geolocationFilter := [];
      new;
      SyncStatusFilter();
    }

    /** The sync effect: name/address mode pushes its remembered filter; the
        first time geolocation mode is seen its filter becomes
        ["APPROVED"] and the flag goes up; later times push the remembered
        geolocation filter unchanged. The name/address filter is never
        touched, and the flag is never lowered. */
    method SyncStatusFilter()
      requires app.Valid()
      modifies this, app
      ensures Valid()
      ensures nameOrAddressFilter == old(nameOrAddressFilter)
      ensures old(hasVisitedGeolocation) ==> hasVisitedGeolocation
      ensures app.viewOption == old(app.viewOption)
      ensures app.viewOption == NameOrAddress ==>
                && hasVisitedGeolocation == old(hasVisitedGeolocation)
                && geolocationFilter == old(geolocationFilter)
                && app.statusFilter == nameOrAddressFilter
      ensures app.viewOption != NameOrAddress && !old(hasVisitedGeolocation) ==>
                && hasVisitedGeolocation
                && geolocationFilter == DefaultGeolocationFilter
                && app.statusFilter == DefaultGeolocationFilter
      ensures app.viewOption != NameOrAddress && old(hasVisitedGeolocation) ==>
                && hasVisitedGeolocation
                && geolocationFilter == old(geolocationFilter)
                && app.statusFilter == geolocationFilter
      ensures unchanged(app`loading, app`fetchedFoodTrucks, app`nameOrAddressQuery, app`geolocationQuery)
    {
      if app.viewOption == NameOrAddress {
        app.SetStatusFilter(nameOrAddressFilter);
      } else if !hasVisitedGeolocation {
        var initial := DefaultGeolocationFilter;
        geolocationFilter := initial;
        app.SetStatusFilter(initial);
        hasVisitedGeolocation := true;
      } else {
        app.SetStatusFilter(geolocationFilter);
      }
    }

    /** A click on a "Search By" radio button, followed by the sync effect. */
    method SelectView(option: string)
      requires Valid()
      modifies this, app
      ensures Valid()
      ensures app.viewOption == option
      ensures nameOrAddressFilter == old(nameOrAddressFilter)
      ensures old(hasVisitedGeolocation) ==> hasVisitedGeolocation
      ensures option == NameOrAddress ==>
                && hasVisitedGeolocation == old(hasVisitedGeolocation)
                && geolocationFilter == old(geolocationFilter)
                && app.statusFilter == nameOrAddressFilter
      ensures option != NameOrAddress && !old(hasVisitedGeolocation) ==>
                && hasVisitedGeolocation
                && geolocationFilter == DefaultGeolocationFilter
                && app.statusFilter == DefaultGeolocationFilter
      ensures option != NameOrAddress && old(hasVisitedGeolocation) ==>
                geolocationFilter == old(geolocationFilter) && app.statusFilter == geolocationFilter
      ensures unchanged(app`loading, app`fetchedFoodTrucks, app`nameOrAddressQuery, app`geolocationQuery)
    {
      app.SetViewOption(option);
      SyncStatusFilter();
    }

    /** `handleStatusFilterChange`: the new filter is remembered for the
        active mode only and becomes the shared filter; the sync effect that
        follows pushes the same filter again. */
    method HandleStatusFilterChange(newFilter: seq<string>)
      requires Valid()
      modifies this, app
      ensures Valid()
      ensures app.statusFilter == newFilter
      ensures app.viewOption == NameOrAddress ==>
                nameOrAddressFilter == newFilter && geolocationFilter == old(geolocationFilter)
      ensures app.viewOption != NameOrAddress ==>
                geolocationFilter == newFilter && nameOrAddressFilter == old(nameOrAddressFilter)
      ensures hasVisitedGeolocation == old(hasVisitedGeolocation)
      ensures unchanged(app`loading, app`fetchedFoodTrucks, app`nameOrAddressQuery, app`geolocationQuery, app`viewOption)
    {
      if app.viewOption == NameOrAddress {
        nameOrAddressFilter := newFilter;
      } else {
        geolocationFilter := newFilter;
      }
      app.SetStatusFilter(newFilter);
      SyncStatusFilter();
    }

    /** A click on the checkbox of `status`: the status checkbox component
        toggles it in the active mode's filter and reports the result. */
    method ToggleStatus(status: string)
      requires Valid()
      modifies this, app
      ensures Valid()
      ensures app.statusFilter == StatusFilter.Toggle(old(ActiveFilter()), status)
      ensures status in ActiveFilter() <==> status !in old(ActiveFilter())
      ensures hasVisitedGeolocation == old(hasVisitedGeolocation)
      ensures app.viewOption == NameOrAddress ==> geolocationFilter == old(geolocationFilter)
      ensures app.viewOption != NameOrAddress ==> nameOrAddressFilter == old(nameOrAddressFilter)
      ensures unchanged(app`loading, app`fetchedFoodTrucks, app`nameOrAddressQuery, app`geolocationQuery, app`viewOption)
    {
      HandleStatusFilterChange(StatusFilter.Toggle(ActiveFilter(), status));
    }
  }
}
