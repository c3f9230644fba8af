/**
 * `main` passes each checker's result straight to `notify`
 * (`av.notify(av.check_cvs(user))`). The checkers fill `availability_at`
 * with plain strings, while `notify`'s loop indexes every element with
 * "store" and "location"; indexing a Python string with a string raises
 * TypeError. Here the list holds Python values of either kind, and the loop
 * is run as written over them.
 */
module Chain {
  import opened Wrappers
  import opened Availability
  import opened Notify

  /** An element of `availability_at` as Python holds it: a plain string, or a record with "store" and "location". */
  datatype Element = Text(s: string) | Record(store: string, location: string)

  /** The list `main` hands to `notify`: the checker's strings, unchanged. */
  function Passed(r: AvailabilityResult): seq<Element> {
    seq(|r.availabilityAt|, i requires 0 <= i < |r.availabilityAt| => Text(r.availabilityAt[i]))
  }

  /** The record reading of a list whose elements are all records. */
  function AsNotifications(es: seq<Element>): seq<Notification>
    requires forall i :: 0 <= i < |es| ==> es[i].Record?
  {
    seq(|es|, i requires 0 <= i < |es| => Notification(es[i].store, es[i].location))
  }

  /**
   * `notify`'s `message +=` loop over arbitrary elements: the message so far,
   * or `None` once an element that is a string has been indexed and raised.
   */
  function LoopAsWritten(es: seq<Element>): Option<string> {
    if es == [] then Some("")
    else
      var init := LoopAsWritten(es[..|es| - 1]);
      var last := es[|es| - 1];
      if init.None? then None
      else match last
        case Text(_) => None
        case Record(store, location) => Some(init.value + Line(Notification(store, location)))
  }

  /** The message `notify` would print for a vendor and a list, or `None` when it raises first. */
  function MessageAsWritten(store: string, es: seq<Element>): Option<string> {
    if |es| == 0 then Some(NoAvailability(store)) else LoopAsWritten(es)
  }

  /** The loop raises exactly when some element of the list is a plain string. */
  lemma {:induction false} LoopRaisesIffSomeText(es: seq<Element>)
    ensures LoopAsWritten(es).None? <==> exists i :: 0 <= i < |es| && es[i].Text?
  {
    if es != [] {
      var init := es[..|es| - 1];
      LoopRaisesIffSomeText(init);
      if LoopAsWritten(init).None? {
        var i :| 0 <= i < |init| && init[i].Text?;
        assert es[i] == init[i];
      } else if es[|es| - 1].Record? {
        forall i | 0 <= i < |es| ensures es[i].Record? {
          if i < |init| { assert es[i] == init[i]; }
        }
      }
    }
  }

  /** Over a list of strings the loop raises exactly when the list is non-empty. */
  lemma {:induction false} AllTextFails(es: seq<Element>)
    requires forall i :: 0 <= i < |es| ==> es[i].Text?
    ensures LoopAsWritten(es).None? <==> |es| != 0
  {
    if es != [] {
      AllTextFails(es[..|es| - 1]);
    }
  }

  /** Over a list of records the loop raises nothing and builds the record reading's lines. */
  lemma {:induction false} AllRecordsGiveLines(es: seq<Element>)
    requires forall i :: 0 <= i < |es| ==> es[i].Record?
    ensures LoopAsWritten(es) == Some(Lines(AsNotifications(es)))
  {
    if es != [] {
      var init := es[..|es| - 1];
      AllRecordsGiveLines(init);
      var ns := AsNotifications(es);
      assert ns[..|ns| - 1] == AsNotifications(init);
    }
  }

  /**
   * As written, handing a checker's result to `notify` raises exactly when the
   * result lists some location; when it does not raise, the message is the
   * fixed "No vaccine availability" text.
   */
  lemma AsWrittenFailsWhenAvailable(r: AvailabilityResult)
    ensures MessageAsWritten(r.store, Passed(r)).None? <==> |r.availabilityAt| != 0
    ensures MessageAsWritten(r.store, Passed(r)).Some? ==>
      MessageAsWritten(r.store, Passed(r)).value == "No vaccine availability at " + r.store + "."
  {
    AllTextFails(Passed(r));
  }

  /** The hand-over as evidently intended: each location paired with the vendor name. */
  function Intended(r: AvailabilityResult): Notifications {
    Notifications(r.store, seq(|r.availabilityAt|, i requires 0 <= i < |r.availabilityAt| =>
      Notification(r.store, r.availabilityAt[i])))
  }

  /** The intended hand-over as Python records: `{"store": vendor, "location": location}` per location. */
  function IntendedElements(r: AvailabilityResult): seq<Element> {
    seq(|r.availabilityAt|, i requires 0 <= i < |r.availabilityAt| => Record(r.store, r.availabilityAt[i]))
  }

  /**
   * Passing those records, the loop as written no longer raises, and it prints
   * the message of the intended input.
   */
  lemma IntendedRecordsWork(r: AvailabilityResult)
    ensures MessageAsWritten(r.store, IntendedElements(r)) == Some(Message(Intended(r)))
  {
    var es := IntendedElements(r);
    AllRecordsGiveLines(es);
    assert AsNotifications(es) == Intended(r).availabilityAt;
  }

  /** Wherever the source's own hand-over works, the intended one prints the same message. */
  lemma IntendedAgreesWhenSourceWorks(r: AvailabilityResult)
    requires MessageAsWritten(r.store, Passed(r)).Some?
    ensures MessageAsWritten(r.store, Passed(r)) == Some(Message(Intended(r)))
  {
    AsWrittenFailsWhenAvailable(r);
  }

  /**
   * With the intended hand-over, the message for a result with availability
   * holds, for each location k in order, the line
   * "Vaccine availability for {store} at {location k}.", and nothing else.
   */
  lemma IntendedMessageLine(r: AvailabilityResult, k: nat)
    requires k < |r.availabilityAt|
    ensures var ns := Intended(r).availabilityAt;
      Message(Intended(r)) ==
        Lines(ns[..k])
        + "Vaccine availability for " + r.store + " at " + r.availabilityAt[k] + ".\n"
        + Lines(ns[k + 1..])
  {
    LinesAt(Intended(r).availabilityAt, k);
  }

  /** With the intended hand-over, nothing available gives the fixed message. */
  lemma IntendedMessageEmpty(r: AvailabilityResult)
    requires |r.availabilityAt| == 0
    ensures Message(Intended(r)) == "No vaccine availability at " + r.store + "."
  {
  }
}
