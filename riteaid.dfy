/**
 * `check_riteaid`: one fetch per store the user has configured, to
 * `baseurl + store_id`, keeping the configured display name of every store
 * whose slot "1" or slot "2" is truthy.
 */
module RiteAid {
  import opened Wrappers
  import opened Json
  import opened Availability

  /** A decoded RiteAid response, reduced to `Data.slots["1"]` and `Data.slots["2"]`. */
  datatype Document = Document(slot1: Json.Value, slot2: Json.Value)

  /** The test `slots["1"] or slots["2"]`. */
  predicate HasAvailability(doc: Document) {
    Truthy(doc.slot1) || Truthy(doc.slot2)
  }

  /** The request for one store: the base URL with the store id appended. */
  function StoreRequest(vendor: VendorConfig, entry: StoreEntry): Request {
    Request(vendor.url + entry.id, vendor.headers)
  }

  /** The outcome of fetching one store's document. */
  function Fetch(vendor: VendorConfig, server: Server<Document>, entry: StoreEntry): Option<Document> {
    GetAvailability(server(StoreRequest(vendor, entry)))
  }

  /** Every fetch for these stores succeeds. */
  predicate AllFetched(vendor: VendorConfig, server: Server<Document>, entries: seq<StoreEntry>) {
    forall i :: 0 <= i < |entries| ==> Fetch(vendor, server, entries[i]).Some?
  }

  /** The store is fetched and its response reports an open slot. */
  predicate StoreAvailable(vendor: VendorConfig, server: Server<Document>, entry: StoreEntry) {
    var doc := Fetch(vendor, server, entry);
    doc.Some? && HasAvailability(doc.value)
  }

  /** The requests made for these stores: one per store, in order, to `url + id`. */
  function Requests(vendor: VendorConfig, entries: seq<StoreEntry>): (requests: seq<Request>)
    ensures |requests| == |entries|
    ensures forall i :: 0 <= i < |entries| ==>
      requests[i] == Request(vendor.url + entries[i].id, vendor.headers)
  {
    if entries == [] then []
    else Requests(vendor, entries[..|entries| - 1]) + [StoreRequest(vendor, entries[|entries| - 1])]
  }

  /** The display names of the stores with availability, in configuration order. */
  function Available(vendor: VendorConfig, server: Server<Document>, entries: seq<StoreEntry>): (names: seq<string>)
    ensures |names| <= |entries|
  {
    if entries == [] then []
    else
      var last := entries[|entries| - 1];
      var init := Available(vendor, server, entries[..|entries| - 1]);
      if StoreAvailable(vendor, server, last) then init + [last.name] else init
  }

  /** What the loop prints for these stores. */
  function Log(vendor: VendorConfig, server: Server<Document>, entries: seq<StoreEntry>, debug: bool): seq<string> {
    if entries == [] then []
    else
      var last := entries[|entries| - 1];
      var init := Log(vendor, server, entries[..|entries| - 1], debug);
      if StoreAvailable(vendor, server, last) then init + ["(RiteAid) Vaccine availability at " + last.name]
      else if debug then init + ["(RiteAid) No vaccine availability at " + last.name]
      else init
  }

  /**
   * `check_riteaid`. `requests` are the GETs issued in order. A failed fetch
   * ends the process at that store: no result, whatever earlier stores
   * reported, and nothing fetched after it.
   */
  method CheckRiteAid(config: Config, user: string, server: Server<Document>, debug: bool)
    returns (outcome: Option<AvailabilityResult>, requests: seq<Request>, log: seq<string>)
    requires user in config.userPreferences
    ensures var entries := config.userPreferences[user].riteaid;
      outcome.Some? <==> AllFetched(config.riteaid, server, entries)
    ensures var entries := config.userPreferences[user].riteaid;
      outcome.Some? ==>
        && outcome.value.store == "RiteAid"
        && outcome.value.availabilityAt == Available(config.riteaid, server, entries)
        && requests == Requests(config.riteaid, entries)
        && log == Log(config.riteaid, server, entries, debug)
    ensures var entries := config.userPreferences[user].riteaid;
      outcome.None? ==>
        && 0 < |requests| <= |entries|
        && requests == Requests(config.riteaid, entries[..|requests|])
        && AllFetched(config.riteaid, server, entries[..|requests| - 1])
        && Fetch(config.riteaid, server, entries[|requests| - 1]).None?
        && log == Log(config.riteaid, server, entries[..|requests| - 1], debug)
  {
    var vendor := config.riteaid;
    var baseurl := vendor.url;
    var headers := vendor.headers;
    var entries := config.userPreferences[user].riteaid;
    var locations := [];
    requests, log := [], [];
    for i := 0 to |entries|
      invariant requests == Requests(vendor, entries[..i])
      invariant AllFetched(vendor, server, entries[..i])
      invariant locations == Available(vendor, server, entries[..i])
      invariant log == Log(vendor, server, entries[..i], debug)
    {
      PrefixStep(vendor, server, entries, i, debug);
      var store := entries[i].id;
      var url := baseurl + store;
      LookupItem(entries, i);
      var location := Lookup(entries, store).value;
      var request := Request(url, headers);
      assert request == StoreRequest(vendor, entries[i]);
      requests := requests + [request];
      var response := GetAvailability(server(request));
      assert response == Fetch(vendor, server, entries[i]);
      if response.None? {
        assert entries[..|requests|] == entries[..i + 1] && entries[..|requests| - 1] == entries[..i];
        return None, requests, log;
      }
      var doc := response.value;
      assert StoreAvailable(vendor, server, entries[i]) == HasAvailability(doc);
      if Truthy(doc.slot1) || Truthy(doc.slot2) {
        locations := locations + [location];
        log := log + ["(RiteAid) Vaccine availability at " + location];
      } else if debug {
        log := log + ["(RiteAid) No vaccine availability at " + location];
      }
    }
    assert entries[..|entries|] == entries;
    outcome := Some(AvailabilityResult("RiteAid", locations));
  }

  /** How each specification function of a prefix grows by one store. */
  lemma PrefixStep(vendor: VendorConfig, server: Server<Document>, entries: seq<StoreEntry>, i: nat, debug: bool)
    requires i < |entries|
    ensures var e, p, q := entries[i], entries[..i], entries[..i + 1];
      && Requests(vendor, q) == Requests(vendor, p) + [StoreRequest(vendor, e)]
      && (AllFetched(vendor, server, q) <==> AllFetched(vendor, server, p) && Fetch(vendor, server, e).Some?)
      && Available(vendor, server, q) ==
           Available(vendor, server, p) + (if StoreAvailable(vendor, server, e) then [e.name] else [])
      && Log(vendor, server, q, debug) ==
           Log(vendor, server, p, debug)
           + (if StoreAvailable(vendor, server, e) then ["(RiteAid) Vaccine availability at " + e.name]
              else if debug then ["(RiteAid) No vaccine availability at " + e.name] else [])
  {
    var p, q := entries[..i], entries[..i + 1];
    assert q[..i] == p && q[i] == entries[i];
    forall j | 0 <= j < i ensures q[j] == p[j] { }
  }

  /** Order preservation: the names for a concatenation are those of each part, in order. */
  lemma {:induction false} AvailableAppend(vendor: VendorConfig, server: Server<Document>, a: seq<StoreEntry>, b: seq<StoreEntry>)
    ensures Available(vendor, server, a + b) == Available(vendor, server, a) + Available(vendor, server, b)
  {
    if b == [] {
      assert a + b == a;
    } else {
      var b' := b[..|b| - 1];
      assert (a + b)[..|a + b| - 1] == a + b';
      assert (a + b)[|a + b| - 1] == b[|b| - 1];
      AvailableAppend(vendor, server, a, b');
    }
  }

  /**
   * A display name is listed exactly when some configured store with that
   * name reports an open slot: names come from the configuration only.
   */
  lemma {:induction false} AvailableMembership(vendor: VendorConfig, server: Server<Document>, entries: seq<StoreEntry>, name: string)
    ensures name in Available(vendor, server, entries) <==>
      exists i :: 0 <= i < |entries| && entries[i].name == name && StoreAvailable(vendor, server, entries[i])
  {
    if entries != [] {
      var n := |entries| - 1;
      var init := entries[..n];
      AvailableMembership(vendor, server, init, name);
      if name in Available(vendor, server, entries) {
        if name in Available(vendor, server, init) {
          var i :| 0 <= i < |init| && init[i].name == name && StoreAvailable(vendor, server, init[i]);
          assert entries[i] == init[i];
        } else {
          assert entries[n].name == name && StoreAvailable(vendor, server, entries[n]);
        }
      } else {
        forall i | 0 <= i < |entries| && entries[i].name == name
          ensures !StoreAvailable(vendor, server, entries[i])
        {
          if i < n {
            assert init[i] == entries[i];
          }
        }
      }
    }
  }

  /**
   * Only the truthiness of the two slots matters: two servers whose answers
   * agree on it for every configured store give the same names.
   */
  lemma {:induction false} AvailableDependsOnlyOnSlots(
    vendor: VendorConfig, s1: Server<Document>, s2: Server<Document>, entries: seq<StoreEntry>)
    requires forall i :: 0 <= i < |entries| ==>
      StoreAvailable(vendor, s1, entries[i]) == StoreAvailable(vendor, s2, entries[i])
    ensures Available(vendor, s1, entries) == Available(vendor, s2, entries)
  {
    if entries != [] {
      var n := |entries| - 1;
      assert forall i :: 0 <= i < n ==> entries[..n][i] == entries[i];
      AvailableDependsOnlyOnSlots(vendor, s1, s2, entries[..n]);
    }
  }

  /** Without debug, exactly one line is printed per available store, naming it. */
  lemma {:induction false} LogWithoutDebug(vendor: VendorConfig, server: Server<Document>, entries: seq<StoreEntry>)
    ensures |Log(vendor, server, entries, false)| == |Available(vendor, server, entries)|
    ensures forall j :: 0 <= j < |Available(vendor, server, entries)| ==>
      Log(vendor, server, entries, false)[j] == "(RiteAid) Vaccine availability at " + Available(vendor, server, entries)[j]
  {
    if entries != [] {
      LogWithoutDebug(vendor, server, entries[..|entries| - 1]);
    }
  }

  /** With debug, line j reports store j's display name, as available or not. */
  lemma {:induction false} LogWithDebug(vendor: VendorConfig, server: Server<Document>, entries: seq<StoreEntry>)
    ensures |Log(vendor, server, entries, true)| == |entries|
    ensures forall j :: 0 <= j < |entries| ==>
      Log(vendor, server, entries, true)[j] ==
        (if StoreAvailable(vendor, server, entries[j])
         then "(RiteAid) Vaccine availability at " else "(RiteAid) No vaccine availability at ")
        + entries[j].name
  {
    if entries != [] {
      LogWithDebug(vendor, server, entries[..|entries| - 1]);
    }
  }
}
