/**
 * `notify`: builds the message for one checker result and decides whether it
 * is published. Its input is read as line 40 of the source reads it: every
 * element of `availability_at` is a record with "store" and "location" keys.
 * The checkers put plain strings into that list instead; module Chain models
 * what that mismatch does.
 */
module Notify {
  import opened Wrappers

  /** One element of `availability_at`, as `notify` indexes it. */
  datatype Notification = Notification(store: string, location: string)

  /** The argument of `notify`. */
  datatype Notifications = Notifications(store: string, availabilityAt: seq<Notification>)

  /** What `client.publish` is given: topic, subject and message. */
  datatype Publication = Publication(topic: string, subject: string, message: string)

  const Subject := "Vaccination availability alert"

  /** The message when nothing is available. */
  function NoAvailability(store: string): string {
    "No vaccine availability at " + store + "."
  }

  /** The line for one element. */
  function Line(n: Notification): string {
    "Vaccine availability for " + n.store + " at " + n.location + ".\n"
  }

  /** The lines of all elements, concatenated in order. */
  function Lines(ns: seq<Notification>): string {
    if ns == [] then "" else Lines(ns[..|ns| - 1]) + Line(ns[|ns| - 1])
  }

  /** The message `notify` prints. */
  function Message(n: Notifications): string {
    if |n.availabilityAt| == 0 then NoAvailability(n.store) else Lines(n.availabilityAt)
  }

  /**
   * `notify`, with the Lambda environment made explicit: `lambdaTopic` is
   * `Some(topic)` when AWS_LAMBDA_FUNCTION_NAME is set (and TOPIC holds the
   * topic), `None` otherwise. Returns its argument unchanged, the printed
   * message and the publication, if any.
   */
  method Notify(notifications: Notifications, lambdaTopic: Option<string>)
    returns (result: Notifications, message: string, publication: Option<Publication>)
    ensures result == notifications
    ensures |notifications.availabilityAt| == 0 ==>
      message == NoAvailability(notifications.store) && publication == None
    ensures |notifications.availabilityAt| != 0 ==>
      && message == Lines(notifications.availabilityAt)
      && publication == (if lambdaTopic.Some? then Some(Publication(lambdaTopic.value, Subject, message)) else None)
  {
    var at := notifications.availabilityAt;
    publication := None;
    if |at| == 0 {
      message := "No vaccine availability at " + notifications.store + ".";
    } else {
      var subject := Subject;
      message := "";
      for i := 0 to |at|
        invariant message == Lines(at[..i])
      {
        assert at[..i + 1][..i] == at[..i];
        message := message + "Vaccine availability for " + at[i].store + " at " + at[i].location + ".\n";
      }
      assert at[..|at|] == at;
      if lambdaTopic.Some? {
        publication := Some(Publication(lambdaTopic.value, subject, message));
      }
    }
    result := notifications;
  }

  /** Two calls with the same input print the same message and make the same publication. */
  method NotifyTwice(notifications: Notifications, lambdaTopic: Option<string>)
    returns (first: string, second: string, samePublication: bool)
    ensures first == second == Message(notifications)
    ensures samePublication
  {
    var r1, m1, p1 := Notify(notifications, lambdaTopic);
    var r2, m2, p2 := Notify(notifications, lambdaTopic);
    first, second, samePublication := m1, m2, p1 == p2;
  }

  /** The lines of a concatenation are the lines of each part, in order. */
  lemma {:induction false} LinesAppend(a: seq<Notification>, b: seq<Notification>)
    ensures Lines(a + b) == Lines(a) + Lines(b)
  {
    if b == [] {
      assert a + b == a;
    } else {
      var b' := b[..|b| - 1];
      var last := b[|b| - 1];
      assert (a + b)[..|a + b| - 1] == a + b';
      assert (a + b)[|a + b| - 1] == last;
      LinesAppend(a, b');
      calc {
        Lines(a + b);
        Lines(a + b') + Line(last);
        (Lines(a) + Lines(b')) + Line(last);
        Lines(a) + (Lines(b') + Line(last));
        Lines(a) + Lines(b);
      }
    }
  }

  /** Element k's line sits between the lines of the elements before and after it. */
  lemma LinesAt(ns: seq<Notification>, k: nat)
    requires k < |ns|
    ensures Lines(ns) == Lines(ns[..k]) + Line(ns[k]) + Lines(ns[k + 1..])
  {
    LinesSplit(ns, k + 1);
    LinesPrefixStep(ns, k);
  }

  lemma LinesSplit(ns: seq<Notification>, k: nat)
    requires k <= |ns|
    ensures Lines(ns) == Lines(ns[..k]) + Lines(ns[k..])
  {
    assert ns == ns[..k] + ns[k..];
    LinesAppend(ns[..k], ns[k..]);
  }

  lemma LinesPrefixStep(ns: seq<Notification>, k: nat)
    requires k < |ns|
    ensures Lines(ns[..k + 1]) == Lines(ns[..k]) + Line(ns[k])
  {
    assert ns[..k + 1][..k] == ns[..k];
  }

  /** The number of newline characters in a string. */
  function Newlines(s: string): nat {
    if s == [] then 0 else Newlines(s[..|s| - 1]) + (if s[|s| - 1] == '\n' then 1 else 0)
  }

  lemma {:induction false} NewlinesAppend(a: string, b: string)
    ensures Newlines(a + b) == Newlines(a) + Newlines(b)
  {
    if b == [] {
      assert a + b == a;
    } else {
      var b' := b[..|b| - 1];
      assert (a + b)[..|a + b| - 1] == a + b';
      assert (a + b)[|a + b| - 1] == b[|b| - 1];
      NewlinesAppend(a, b');
    }
  }

  /** A string with no newline character. */
  predicate SingleLine(s: string) {
    forall i :: 0 <= i < |s| ==> s[i] != '\n'
  }

  lemma {:induction false} NewlinesNone(s: string)
    requires SingleLine(s)
    ensures Newlines(s) == 0
  {
    if s != [] {
      NewlinesNone(s[..|s| - 1]);
    }
  }

  lemma SingleLineAppend(a: string, b: string)
    requires SingleLine(a) && SingleLine(b)
    ensures SingleLine(a + b)
  {
  }

  /** A line built from single-line fields holds exactly one newline, its last character. */
  lemma LineNewlines(n: Notification)
    requires SingleLine(n.store) && SingleLine(n.location)
    ensures Newlines(Line(n)) == 1
  {
    var head := "Vaccine availability for " + n.store + " at " + n.location + ".";
    SingleLineAppend("Vaccine availability for ", n.store);
    SingleLineAppend("Vaccine availability for " + n.store, " at ");
    SingleLineAppend("Vaccine availability for " + n.store + " at ", n.location);
    SingleLineAppend("Vaccine availability for " + n.store + " at " + n.location, ".");
    NewlinesNone(head);
    var line := Line(n);
    assert line == head + "\n";
    assert line[..|line| - 1] == head;
  }

  /**
   * One line per element: when no store or location contains a newline, the
   * message has exactly as many newlines as there are elements.
   */
  lemma {:induction false} OneLinePerElement(ns: seq<Notification>)
    requires forall i :: 0 <= i < |ns| ==> SingleLine(ns[i].store) && SingleLine(ns[i].location)
    ensures Newlines(Lines(ns)) == |ns|
  {
    if ns != [] {
      var n := ns[|ns| - 1];
      OneLinePerElement(ns[..|ns| - 1]);
      NewlinesAppend(Lines(ns[..|ns| - 1]), Line(n));
      LineNewlines(n);
    }
  }

  /** The two outcomes are told apart: only a non-empty input gives a message ending in a newline. */
  lemma MessageEnding(n: Notifications)
    ensures |Message(n)| > 0
    ensures (Message(n)[|Message(n)| - 1] == '\n') <==> |n.availabilityAt| != 0
  {
  }
}
