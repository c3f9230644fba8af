/** Concrete runs of the checkers and the notifier on small configurations and responses. */
module Scenarios {
  import opened Wrappers
  import opened Json
  import opened Availability
  import opened Notify
  import Cvs
  import RiteAid
  import Chain

  const NoHeaders: map<string, string> := map[]

  function SampleConfig(stores: StoreTable): Config {
    Config(
      VendorConfig("https://cvs.example/nj", NoHeaders),
      VendorConfig("https://riteaid.example/stores/", NoHeaders),
      map["alice" := UserPreferences(stores)])
  }

  /** Newark has slots, Trenton is fully booked: only Newark is reported, with a one-line message. */
  method NewarkAvailable() returns (outcome: Option<AvailabilityResult>, message: string)
    ensures outcome == Some(AvailabilityResult("CVS", ["Newark"]))
    ensures Chain.MessageAsWritten("CVS", Chain.Passed(outcome.value)) == None
    ensures message == "Vaccine availability for CVS at Newark.\n"
  {
    var doc := Cvs.Document([Cvs.Store("Newark", Str("Available")), Cvs.Store("Trenton", Str("Fully Booked"))]);
    var config := SampleConfig([]);
    var server: Server<Cvs.Document> := _ => Answered(200, doc);
    var s := doc.nj;
    assert server(Cvs.CvsRequest(config)) == Answered(200, doc);
    assert s == [s[0]] + [s[1]];
    Cvs.AvailableAppend([s[0]], [s[1]]);
    Cvs.AvailableSingle(s[0]);
    Cvs.AvailableSingle(s[1]);
    var requests, log;
    outcome, requests, log := Cvs.CheckCvs(config, "alice", server, false);
    var n, m, p := Notify.Notify(Chain.Intended(outcome.value), None);
    assert Chain.Intended(outcome.value).availabilityAt == [Notification("CVS", "Newark")];
    assert [Notification("CVS", "Newark")][..0] == [];
    message := m;
  }

  /** Every store fully booked: an empty result and the fixed message, published nowhere. */
  method AllBooked(lambdaTopic: Option<string>) returns (outcome: Option<AvailabilityResult>, message: string, publication: Option<Publication>)
    ensures outcome == Some(AvailabilityResult("CVS", []))
    ensures message == "No vaccine availability at CVS." && publication == None
  {
    var doc := Cvs.Document([Cvs.Store("Newark", Str("Fully Booked")), Cvs.Store("Trenton", Str("Fully Booked"))]);
    var server: Server<Cvs.Document> := _ => Answered(200, doc);
    Cvs.AllFullyBooked(doc.nj);
    var requests, log;
    outcome, requests, log := Cvs.CheckCvs(SampleConfig([]), "alice", server, false);
    var input := Notifications("CVS", []);
    var n, m, p := Notify.Notify(input, lambdaTopic);
    message, publication := m, p;
  }

  /** A 500 from the CVS endpoint makes `urlopen` raise HTTPError: no result. */
  method CvsServerError() returns (outcome: Option<AvailabilityResult>)
    ensures outcome == None
  {
    var server: Server<Cvs.Document> := _ => Raised;
    var requests, log;
    outcome, requests, log := Cvs.CheckCvs(SampleConfig([]), "alice", server, true);
  }

  /** An answer with a status other than 200 (here 204): the process exits, no result. */
  method CvsNotOk() returns (outcome: Option<AvailabilityResult>)
    ensures outcome == None
  {
    var server: Server<Cvs.Document> := _ => Answered(204, Cvs.Document([Cvs.Store("Newark", Str("Available"))]));
    var requests, log;
    outcome, requests, log := Cvs.CheckCvs(SampleConfig([]), "alice", server, false);
  }

  /** Store "123" shown as "Downtown", slot "1" open: "Downtown" is reported after one fetch of ".../123". */
  method DowntownAvailable() returns (outcome: Option<AvailabilityResult>, requests: seq<Request>)
    ensures outcome == Some(AvailabilityResult("RiteAid", ["Downtown"]))
    ensures requests == [Request("https://riteaid.example/stores/123", NoHeaders)]
  {
    var stores: StoreTable := [StoreEntry("123", "Downtown")];
    var config := SampleConfig(stores);
    var server: Server<RiteAid.Document> := _ => Answered(200, RiteAid.Document(Bool(true), Bool(false)));
    assert stores[..0] == [];
    var request := RiteAid.StoreRequest(config.riteaid, stores[0]);
    assert request.url == "https://riteaid.example/stores/123";
    assert server(request) == Answered(200, RiteAid.Document(Bool(true), Bool(false)));
    assert RiteAid.StoreAvailable(config.riteaid, server, stores[0]);
    assert config.userPreferences["alice"].riteaid == stores;
    assert RiteAid.AllFetched(config.riteaid, server, stores);
    assert RiteAid.Available(config.riteaid, server, stores) == ["Downtown"];
    var log;
    outcome, requests, log := RiteAid.CheckRiteAid(config, "alice", server, false);
  }

  /** The second store's fetch fails: no result, although the first store had slots. */
  method SecondStoreFails() returns (outcome: Option<AvailabilityResult>, requests: seq<Request>)
    ensures outcome == None
    ensures |requests| == 2
  {
    var stores: StoreTable := [StoreEntry("1", "Uptown"), StoreEntry("2", "Midtown")];
    assert DistinctIds(stores);
    var config := SampleConfig(stores);
    var open := RiteAid.Document(Number(3.0), Null);
    var server: Server<RiteAid.Document> :=
      (r: Request) => if r.url == "https://riteaid.example/stores/1" then Answered(200, open) else Raised;
    var second := RiteAid.StoreRequest(config.riteaid, stores[1]);
    assert second.url[|second.url| - 1] == '2';
    assert second.url != "https://riteaid.example/stores/1";
    assert RiteAid.Fetch(config.riteaid, server, stores[0]).Some?;
    assert RiteAid.Fetch(config.riteaid, server, stores[1]).None?;
    var log;
    outcome, requests, log := RiteAid.CheckRiteAid(config, "alice", server, false);
  }
}
