/** The latitude/longitude search panel: its two text inputs and warning,
    the search and clear buttons, and the effect that refills empty inputs
    from a query that is already set. Formatting a number as text is a
    parameter of the panel. */
module GeoSearch {
  import opened Page
  import opened Coordinates

  /** The text `String(n)` gives for a number; it is never empty. */
  type NumberText = s: string | |s| > 0 witness "0"

  class GeolocationSearch {
    /** The page whose geolocation query the panel reads and sets. */
    const app: QueryController
    /** How a number is written back into an input. */
    const toText: real -> NumberText

    var lat: string
    var lon: string
    var warning: string

    /** The refill effect has nothing left to do: the inputs are never both
        empty while the query holds a latitude/longitude pair. */
    ghost predicate Settled()
      reads this, app
    {
      !(lat == "" && lon == "" && |app.geolocationQuery| == 2)
    }

    ghost predicate Valid()
      reads this, app
    {
      app.Valid() && Settled()
    }

    /** Mounting: the inputs and the warning start empty, and the refill
        effect runs once, so a pair already in the query shows up in the
        inputs. */
    constructor (app: QueryController, toText: real -> NumberText)
      requires app.Valid()
      ensures this.app == app && this.toText == toText && Valid()
      ensures warning == ""
      ensures |app.geolocationQuery| == 2 ==>
                lat == toText(app.geolocationQuery[0]) && lon == toText(app.geolocationQuery[1])
      ensures |app.geolocationQuery| != 2 ==> lat == "" && lon == ""
    {
      this.app := app;
      this.toText := toText;
      lat, lon, warning := "", "", "";
      new;
      RefillFromQuery();
    }

    /** The refill effect: when both inputs are empty and the query holds a
        pair, the inputs get the texts of its two numbers; otherwise nothing
        changes. */
    method RefillFromQuery()
      modifies this`lat, this`lon
      ensures Settled()
      ensures old(lat) == "" && old(lon) == "" && |app.geolocationQuery| == 2 ==>
                lat == toText(app.geolocationQuery[0]) && lon == toText(app.geolocationQuery[1])
      ensures !(old(lat) == "" && old(lon) == "" && |app.geolocationQuery| == 2) ==>
                lat == old(lat) && lon == old(lon)
    {
      if lat == "" && lon == "" && |app.geolocationQuery| == 2 {
        lat := toText(app.geolocationQuery[0]);
        lon := toText(app.geolocationQuery[1]);
      }
    }

    /** Typing into the latitude input, followed by the refill effect:
        emptying it while the longitude is empty and a pair is set brings
        both texts back. */
    method SetLat(text: string)
      requires Valid()
      modifies this`lat, this`lon
      ensures Valid()
      ensures !(text == "" && old(lon) == "" && |app.geolocationQuery| == 2) ==>
                lat == text && lon == old(lon)
      ensures text == "" && old(lon) == "" && |app.geolocationQuery| == 2 ==>
                lat == toText(app.geolocationQuery[0]) && lon == toText(app.geolocationQuery[1])
    {
      lat := text;
      RefillFromQuery();
    }

    /** Typing into the longitude input, followed by the refill effect. */
    method SetLon(text: string)
      requires Valid()
      modifies this`lat, this`lon
      ensures Valid()
      ensures !(text == "" && old(lat) == "" && |app.geolocationQuery| == 2) ==>
                lon == text && lat == old(lat)
      ensures text == "" && old(lat) == "" && |app.geolocationQuery| == 2 ==>
                lat == toText(app.geolocationQuery[0]) && lon == toText(app.geolocationQuery[1])
    {
      lon := text;
      RefillFromQuery();
    }

    /** `handleSearch`: the warning is cleared; a rejected pair of texts
        sets its warning and leaves the page as it was; an accepted pair
        becomes the geolocation query, which ranks the list afresh. The
        inputs keep their texts. */
    method HandleSearch()
      requires Valid()
      modifies this, app
      ensures Valid()
      ensures lat == old(lat) && lon == old(lon)
      ensures warning == "" <==> CheckCoordinates(lat, lon).Accepted?
      ensures CheckCoordinates(lat, lon).Rejected? ==>
                warning == CheckCoordinates(lat, lon).warning && unchanged(app)
      ensures CheckCoordinates(lat, lon).Accepted? ==>
                app.geolocationQuery == [CheckCoordinates(lat, lon).lat, CheckCoordinates(lat, lon).lon]
      ensures unchanged(app`loading, app`fetchedFoodTrucks, app`statusFilter, app`nameOrAddressQuery, app`viewOption)
    {
      warning := "";
      match CheckCoordinates(lat, lon) {
        case Rejected(message) =>
          warning := message;
        case Accepted(a, b) =>
          app.SetGeolocationQuery([a, b]);
      }
      RefillFromQuery();
    }

    /** `handleClear`: both inputs, the warning and the query are emptied,
        and with the query the ranked list. */
    method HandleClear()
      requires Valid()
      modifies this, app
      ensures Valid()
      ensures lat == "" && lon == "" && warning == ""
      ensures app.geolocationQuery == [] && app.filteredByGeolocation == []
      ensures unchanged(app`loading, app`fetchedFoodTrucks, app`statusFilter, app`nameOrAddressQuery, app`viewOption)
    {
      lat, lon, warning := "", "", "";
      app.SetGeolocationQuery([]);
      RefillFromQuery();
    }
  }
}
