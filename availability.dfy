/**
 * What the two vendor checks share: the configuration they read, the HTTP
 * fetch seen as an outcome, and the result record they both return.
 */
module Availability {
  import opened Wrappers

  /** `config[vendor]`: the vendor endpoint and the extra request headers. */
  datatype VendorConfig = VendorConfig(url: string, headers: map<string, string>)

  /** One item of the `user_preferences[user]["riteaid"]` dictionary: store id and display name. */
  datatype StoreEntry = StoreEntry(id: string, name: string)

  /** A dictionary's keys are distinct. */
  predicate DistinctIds(entries: seq<StoreEntry>) {
    forall i, j :: 0 <= i < j < |entries| ==> entries[i].id != entries[j].id
  }

  /** A store dictionary, as its items in iteration (insertion) order. */
  type StoreTable = entries: seq<StoreEntry> | DistinctIds(entries) witness []

  /** `user_preferences[user]`: the RiteAid stores this user watches. */
  datatype UserPreferences = UserPreferences(riteaid: StoreTable)

  /** The loaded configuration file; immutable for the whole run. */
  datatype Config = Config(
    cvs: VendorConfig,
    riteaid: VendorConfig,
    userPreferences: map<string, UserPreferences>)

  /** `d[key]` on a store dictionary: the value paired with the key. */
  function Lookup(entries: seq<StoreEntry>, id: string): Option<string> {
    if entries == [] then None
    else if entries[0].id == id then Some(entries[0].name)
    else Lookup(entries[1..], id)
  }

  /** In a dictionary, looking up the key of an item yields that item's value. */
  lemma {:induction false} LookupItem(entries: seq<StoreEntry>, i: nat)
    requires DistinctIds(entries) && i < |entries|
    ensures Lookup(entries, entries[i].id) == Some(entries[i].name)
  {
    if i > 0 {
      assert entries[0].id != entries[i].id;
      assert DistinctIds(entries[1..]) by {
        forall a, b | 0 <= a < b < |entries| - 1
          ensures entries[1..][a].id != entries[1..][b].id
        {
          assert entries[a + 1].id != entries[b + 1].id;
        }
      }
      LookupItem(entries[1..], i - 1);
    }
  }

  /** One HTTP GET: the URL and the configured extra headers. */
  datatype Request = Request(url: string, headers: map<string, string>)

  /**
   * What a GET comes back with: `urlopen` raised (an HTTPError or a transport
   * error), or a response with a status code and a decoded JSON body.
   */
  datatype Response<D> = Raised | Answered(status: int, body: D)

  /** The remote side, as a function from request to response. */
  type Server<D> = Request -> Response<D>

  /**
   * `get_availability`: the decoded body when the status is 200; otherwise the
   * process exits with status 1, modelled as no document.
   */
  function GetAvailability<D>(response: Response<D>): Option<D> {
    match response
    case Answered(status, body) => if status == 200 then Some(body) else None
    case Raised => None
  }

  /** The `{"store": ..., "availability_at": [...]}` record a checker returns. */
  datatype AvailabilityResult = AvailabilityResult(store: string, availabilityAt: seq<string>)
}
