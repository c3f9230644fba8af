# Vaccine availability checker, modelled in Dafny

The program polls two pharmacy chains for vaccine appointment slots and
reports the result of each. `check_cvs` fetches one bulk document and keeps
the city of every New Jersey store whose status is not "Fully Booked".
`check_riteaid` fetches one document per store the user has configured, at
`baseurl + store_id`. It keeps the configured display name of every store
whose slot "1" or slot "2" is truthy. `notify` turns a result into a message.
An empty result gives the fixed "No vaccine availability at {store}." text.
A non-empty one gives one line per element, and that message is published to
SNS when running inside AWS Lambda.

The model is imperative where the source is. The checkers' loops and
`notify`'s `message +=` loop are methods. Their invariants tie the list or
message built so far to a recursive function of the prefix already processed.
Lemmas state what those functions mean.

Modules:

- `Wrappers` (`wrappers.dfy`): `Option`.
- `Json` (`json.dfy`): decoded JSON values and Python truthiness.
- `Availability` (`availability.dfy`): the configuration, the fetch as an outcome, the result record.
- `Cvs` (`cvs.dfy`), `RiteAid` (`riteaid.dfy`): the two checkers.
- `Notify` (`notify.dfy`): message building and the publish decision.
- `Chain` (`chain.dfy`): how `main` hands each checker's result to `notify`. It also runs `notify`'s message loop over the Python values the list really holds: strings or records.
- `Scenarios` (`scenarios.dfy`): concrete runs on small inputs.

The remote side is a parameter `server: Request -> Response<D>`. A response
is `Raised`, standing for `urlopen` raising, or `Answered(status, body)`.
`get_availability` yields the body only for status 200. Every other outcome
ends the process with exit status 1. The model represents that as "no
result" (`None`). The Python `Availability` object never changes its fields,
so the model has no class: `config` and `debug` are plain parameters.

The model follows the code on these points:

- A fetch succeeds only on status 200. Any other status that `urlopen` returns without raising also ends the process.
- Publishing requires the Lambda environment. Outside Lambda, a non-empty result is only printed.
- Each line of the message names the `store` field of its own element, not the result's `store`.

## Model

| member | source | states |
|---|---|---|
| `Availability.LookupItem` | src/availability.py:73 | looking up a configured store id in the user's store dictionary yields that store's own display name |
| `Cvs.Available` | src/availability.py:55-57 | the available cities are never more than the stores in the response |
| `Cvs.CheckCvs` | src/availability.py:50-65 | exactly one request, to the configured URL with the configured headers; a failed fetch (raised, or a status other than 200) gives no result and no output; otherwise the result's store is "CVS", its list is exactly the available cities in response order, and the printed lines are the walk's log |
| `Cvs.AvailableAppend` | src/availability.py:55-57 | order preservation: the cities for a concatenation of store lists are those of the first part followed by those of the second |
| `Cvs.AvailableSingle` | src/availability.py:56-57 | one store contributes its city exactly when its status is not "Fully Booked" |
| `Cvs.AvailableMembership` | src/availability.py:55-57 | a city is listed if and only if some store with that city is not "Fully Booked" |
| `Cvs.AllFullyBooked` | src/availability.py:55-57 | when every store is "Fully Booked", the list is empty |
| `Cvs.NoneFullyBooked` | src/availability.py:55-57 | when no store is "Fully Booked", the list has every store's city, at the store's own position |
| `Cvs.LogWithoutDebug` | src/availability.py:56-60 | without debug, exactly one "(CVS) Vaccine availability at {city}" line is printed per listed city, in the same order |
| `Cvs.LogWithDebug` | src/availability.py:56-60 | with debug, one line per store, in order: line j is "(CVS) Vaccine availability at {city j}" when store j is not "Fully Booked", and "(CVS) No vaccine availability at {city j}" otherwise |
| `RiteAid.Requests` | src/availability.py:71-72 | one request per configured store, in configuration order, each to the base URL followed by the store id, with the configured headers |
| `RiteAid.Available` | src/availability.py:71-76 | the available names are never more than the configured stores |
| `RiteAid.CheckRiteAid` | src/availability.py:67-84 | a result is produced if and only if every store's fetch succeeds. Then its store is "RiteAid", its list is the available display names in configuration order, and one request was made per store. Otherwise the requests stop at the first failing store, all earlier ones succeeded, and no result is given, whatever the earlier stores reported |
| `RiteAid.AvailableAppend` | src/availability.py:71-76 | order preservation: the names for a concatenation of store lists are those of the first part followed by those of the second |
| `RiteAid.AvailableMembership` | src/availability.py:73-76 | a display name is listed if and only if some configured store with that name was fetched and has slot "1" or slot "2" truthy; names come from the configuration only |
| `RiteAid.AvailableDependsOnlyOnSlots` | src/availability.py:75 | two servers whose documents agree, store by store, on the truthiness of the two slots give the same names |
| `RiteAid.LogWithoutDebug` | src/availability.py:75-79 | without debug, exactly one "(RiteAid) Vaccine availability at {name}" line is printed per listed name, in the same order |
| `RiteAid.LogWithDebug` | src/availability.py:75-79 | with debug, one line per store, in order: line j is "(RiteAid) Vaccine availability at {name j}" when store j has slot "1" or "2" truthy, and "(RiteAid) No vaccine availability at {name j}" otherwise |
| `Notify.Notify` | src/availability.py:33-48 | returns its argument unchanged. An empty list gives "No vaccine availability at {store}." and no publication. A non-empty list gives the in-order concatenation of "Vaccine availability for {store_i} at {location_i}.\n", published with subject "Vaccination availability alert" to the topic exactly when running in Lambda |
| `Notify.NotifyTwice` | src/availability.py:33-48 | two calls on the same input print the same message and make the same publication |
| `Notify.LinesAppend` | src/availability.py:38-40 | the message for a concatenation of elements is the message of the first part followed by that of the second |
| `Notify.LinesAt` | src/availability.py:38-40 | element k's line sits in the message right after the lines of the elements before it and right before those after it |
| `Notify.LineNewlines` | src/availability.py:40 | one element's line holds exactly one newline when its store and location hold none |
| `Notify.OneLinePerElement` | src/availability.py:38-40 | the message has exactly as many newlines as elements when no store or location contains one |
| `Notify.MessageEnding` | src/availability.py:34-40 | the message is never empty, and it ends in a newline if and only if the list is non-empty |
| `Chain.LoopRaisesIffSomeText` | src/availability.py:39-40 | the message loop raises if and only if some element of the list is a plain string rather than a record |
| `Chain.AllTextFails` | src/availability.py:39-40 | the message loop over a list of plain strings raises if and only if the list is non-empty |
| `Chain.AllRecordsGiveLines` | src/availability.py:38-40 | the message loop over a list of records raises nothing and builds one line per record, in order |
| `Chain.AsWrittenFailsWhenAvailable` | src/availability.py:98-99 | handing a checker's list of strings to `notify` raises if and only if the result lists some location; when it does not raise, the message is "No vaccine availability at {vendor}." |
| `Chain.IntendedRecordsWork` | src/availability.py:98-99 | handing `{"store": vendor, "location": location}` records instead, the loop as written does not raise and prints the intended message |
| `Chain.IntendedAgreesWhenSourceWorks` | src/availability.py:98-99 | whenever the source's own hand-over does not raise, the intended one prints the same message |
| `Chain.IntendedMessageLine` | src/availability.py:38-40 | with the intended hand-over, location k's line reads "Vaccine availability for {vendor} at {location k}." and sits at position k of the message |
| `Chain.IntendedMessageEmpty` | src/availability.py:34-35 | with the intended hand-over, an empty result gives "No vaccine availability at {vendor}." |
| `Scenarios.NewarkAvailable` | src/availability.py:50-65 | Newark available and Trenton fully booked gives ["Newark"] and the message "Vaccine availability for CVS at Newark.\n"; the source's own hand-over fails on it |
| `Scenarios.AllBooked` | src/availability.py:34-35 | all stores fully booked gives an empty CVS result, the fixed message and no publication |
| `Scenarios.CvsServerError` | src/availability.py:22-26 | a 500 from the CVS endpoint, which makes `urlopen` raise, gives no result |
| `Scenarios.CvsNotOk` | src/availability.py:28-31 | an answer with status 204 gives no result, although its body lists an available store |
| `Scenarios.DowntownAvailable` | src/availability.py:71-76 | store "123" shown as "Downtown" with slot "1" true gives ["Downtown"] after one request to the base URL followed by "123" |
| `Scenarios.SecondStoreFails` | src/availability.py:74 | a failure at the second store gives no result, although the first store had slots, after exactly two requests |

## Left out

- Building the HTTP request is not modelled: the fixed user-agent header, the header merge loop and `urlopen` itself. A fetch is a call of the `server` parameter on `Request(url, headers)`.
- The text of the printed HTTPError is not modelled. A raised error gives no result and no log.
- JSON decoding is not modelled. A CVS document is its `responsePayloadData.data.NJ` list, and a RiteAid document is its `Data.slots["1"]` and `Data.slots["2"]` values.
- The KeyError on a missing key in a document is not modelled, because documents are assumed well-shaped.
- The SNS client is a foreign call. A publication is returned as a (topic, subject, message) record.
- `os.environ` is replaced by the parameter `lambdaTopic`. `Some(topic)` means AWS_LAMBDA_FUNCTION_NAME is set and TOPIC holds the topic.
- `main`, argument parsing and loading the configuration file are entry-point glue and are not modelled. The hand-over from checker to notifier, on `main`'s lines 98-99, is modelled in `Chain`.
- `RiteAid.CheckRiteAid`: requires the user to be in the configuration, where the source raises KeyError.
- Cities and display names are modelled as strings. A status is any JSON value, compared with the string "Fully Booked".
- JSON numbers are reals, so the model has no NaN and no infinity. `json.loads` does accept them, and they are truthy like any non-zero real, so slot tests lose nothing.
- The store dictionary is its items in iteration order, with distinct ids.
- Printing is modelled as the returned `log` and `message` values.

## Findings

| source | as written | input that shows it | evidently intended | confidence | as-written member | corrected member |
|---|---|---|---|---|---|---|
| src/availability.py:98-99 | `notify(check_cvs(user))` passes a list of city strings. `notify` indexes each element with "store" and "location" (line 40), and indexing a string that way raises TypeError | a CVS response listing one store with status "Available" | pair each location with the vendor name, giving `{"store": vendor, "location": location}`, before calling `notify` | high; not executed | `Chain.AsWrittenFailsWhenAvailable` | `Chain.IntendedRecordsWork` |
