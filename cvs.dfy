/**
 * `check_cvs`: one fetch of the CVS bulk endpoint, then a walk over the New
 * Jersey store list keeping the city of every store not reported as
 * "Fully Booked".
 */
module Cvs {
  import opened Wrappers
  import opened Json
  import opened Availability

  /** One element of `responsePayloadData.data.NJ`. */
  datatype Store = Store(city: string, status: Json.Value)

  /** A decoded CVS response, reduced to its `responsePayloadData.data.NJ` list. */
  datatype Document = Document(nj: seq<Store>)

  const FullyBooked: Json.Value := Str("Fully Booked")

  /** The test `store["status"] != "Fully Booked"`. A status that is not a string is never equal to it. */
  predicate HasAvailability(store: Store) {
    store.status != FullyBooked
  }

  /** The single request `check_cvs` makes. */
  function CvsRequest(config: Config): Request {
    Request(config.cvs.url, config.cvs.headers)
  }

  /** The cities of the stores with availability, in response order. */
  function Available(stores: seq<Store>): (cities: seq<string>)
    ensures |cities| <= |stores|
  {
    if stores == [] then []
    else
      var last := stores[|stores| - 1];
      var init := Available(stores[..|stores| - 1]);
      if HasAvailability(last) then init + [last.city] else init
  }

  /** What the walk prints, one line per store it reports on. */
  function Log(stores: seq<Store>, debug: bool): seq<string> {
    if stores == [] then []
    else
      var last := stores[|stores| - 1];
      var init := Log(stores[..|stores| - 1], debug);
      if HasAvailability(last) then init + ["(CVS) Vaccine availability at " + last.city]
      else if debug then init + ["(CVS) No vaccine availability at " + last.city]
      else init
  }

  /**
   * `check_cvs`. A failed fetch ends the process, so no result and nothing
   * printed by the walk; otherwise the result lists the available cities.
   * `user` is accepted and, as in the source, not used.
   */
  method CheckCvs(config: Config, user: string, server: Server<Document>, debug: bool)
    returns (outcome: Option<AvailabilityResult>, requests: seq<Request>, log: seq<string>)
    ensures requests == [CvsRequest(config)]
    ensures outcome.Some? <==> GetAvailability(server(CvsRequest(config))).Some?
    ensures outcome.Some? ==>
      var stores := GetAvailability(server(CvsRequest(config))).value.nj;
      && outcome.value.store == "CVS"
      && outcome.value.availabilityAt == Available(stores)
      && log == Log(stores, debug)
    ensures outcome.None? ==> log == []
  {
    var baseurl := config.cvs.url;
    var headers := config.cvs.headers;
    var request := Request(baseurl, headers);
    requests := [request];
    var response := GetAvailability(server(request));
    if response.None? {
      return None, requests, [];
    }
    var stores := response.value.nj;
    var locations := [];
    log := [];
    for i := 0 to |stores|
      invariant locations == Available(stores[..i])
      invariant log == Log(stores[..i], debug)
    {
      assert stores[..i + 1][..i] == stores[..i];
      var store := stores[i];
      if store.status != FullyBooked {
        locations := locations + [store.city];
        log := log + ["(CVS) Vaccine availability at " + store.city];
      } else if debug {
        log := log + ["(CVS) No vaccine availability at " + store.city];
      }
    }
    assert stores[..|stores|] == stores;
    outcome := Some(AvailabilityResult("CVS", locations));
  }

  /** Order preservation: the available cities of a concatenation are those of each part, in order. */
  lemma {:induction false} AvailableAppend(a: seq<Store>, b: seq<Store>)
    ensures Available(a + b) == Available(a) + Available(b)
  {
    if b == [] {
      assert a + b == a;
    } else {
      var b' := b[..|b| - 1];
      assert (a + b)[..|a + b| - 1] == a + b';
      assert (a + b)[|a + b| - 1] == b[|b| - 1];
      AvailableAppend(a, b');
    }
  }

  /** A single store contributes its city exactly when it has availability. */
  lemma AvailableSingle(store: Store)
    ensures Available([store]) == if HasAvailability(store) then [store.city] else []
  {
  }

  /** A city is listed exactly when some store with that city has availability. */
  lemma {:induction false} AvailableMembership(stores: seq<Store>, city: string)
    ensures city in Available(stores) <==>
      exists i :: 0 <= i < |stores| && stores[i].city == city && HasAvailability(stores[i])
  {
    if stores != [] {
      var n := |stores| - 1;
      var init := stores[..n];
      AvailableMembership(init, city);
      if city in Available(stores) {
        if city in Available(init) {
          var i :| 0 <= i < |init| && init[i].city == city && HasAvailability(init[i]);
          assert stores[i] == init[i];
        } else {
          assert stores[n].city == city && HasAvailability(stores[n]);
        }
      } else {
        forall i | 0 <= i < |stores| && stores[i].city == city
          ensures !HasAvailability(stores[i])
        {
          if i < n {
            assert init[i] == stores[i];
          }
        }
      }
    }
  }

  /** When every store is fully booked, nothing is available. */
  lemma {:induction false} AllFullyBooked(stores: seq<Store>)
    requires forall i :: 0 <= i < |stores| ==> stores[i].status == FullyBooked
    ensures Available(stores) == []
  {
    if stores != [] {
      AllFullyBooked(stores[..|stores| - 1]);
    }
  }

  /** When no store is fully booked, every city is listed, in response order. */
  lemma {:induction false} NoneFullyBooked(stores: seq<Store>)
    requires forall i :: 0 <= i < |stores| ==> stores[i].status != FullyBooked
    ensures |Available(stores)| == |stores|
    ensures forall i :: 0 <= i < |stores| ==> Available(stores)[i] == stores[i].city
  {
    if stores != [] {
      NoneFullyBooked(stores[..|stores| - 1]);
    }
  }

  /** Without debug, exactly one line is printed per available city, naming it. */
  lemma {:induction false} LogWithoutDebug(stores: seq<Store>)
    ensures |Log(stores, false)| == |Available(stores)|
    ensures forall j :: 0 <= j < |Available(stores)| ==>
      Log(stores, false)[j] == "(CVS) Vaccine availability at " + Available(stores)[j]
  {
    if stores != [] {
      LogWithoutDebug(stores[..|stores| - 1]);
    }
  }

  /** With debug, line j reports store j's city, as available or not. */
  lemma {:induction false} LogWithDebug(stores: seq<Store>)
    ensures |Log(stores, true)| == |stores|
    ensures forall j :: 0 <= j < |stores| ==>
      Log(stores, true)[j] ==
        (if HasAvailability(stores[j]) then "(CVS) Vaccine availability at " else "(CVS) No vaccine availability at ")
        + stores[j].city
  {
    if stores != [] {
      LogWithDebug(stores[..|stores| - 1]);
    }
  }
}
