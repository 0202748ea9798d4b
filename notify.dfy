/**
 * What notifyResults (lib/npmHandler.js:136-170) reports: at most one message
 * per record, joined by newlines, shown as a warning when some installed copy
 * is outside its range and as information otherwise. The Atom notification
 * call becomes the returned value.
 */
module Notifications {
  import opened Wrappers
  import opened Outcomes

  datatype Severity = Warning | Info

  /** The `atom.notifications.addWarning/addInfo(title, {detail})` call. */
  datatype Notification = Notification(severity: Severity, title: string, detail: string)

  /** A template-literal interpolation of a string that may be undefined. */
  function Interpolate(s: Option<string>): string {
    if s.Some? then s.value else "undefined"
  }

  /** The message for one record, by priority: local install out of range, then outdated, then update outside the range. */
  function Message(o: Outcome): (m: Option<string>)
    ensures m.Some? ==> |m.value| > 0
    ensures m.Some? <==> IsTrue(o.localOutdated) || IsTrue(o.outdated) || IsTrue(o.updateAvailable)
  {
    if IsTrue(o.localOutdated) then
      Some(o.name + " needs update")
    else if IsTrue(o.outdated) then
      Some(o.name + " outdated: " + Interpolate(o.localVersion) + " => " + Interpolate(o.npmVersion))
    else if IsTrue(o.updateAvailable) then
      Some(o.name + " updated: " + Interpolate(o.localVersion) + " => " + Interpolate(o.updateVersion))
    else
      None
  }

  /** The messages of the records that have one, in record order. */
  function Messages(os: seq<Outcome>): (ms: seq<string>)
    ensures |ms| <= |os|
    ensures forall m :: m in ms ==> |m| > 0
  {
    if os == [] then []
    else
      var rest := Messages(os[1..]);
      match Message(os[0])
      case Some(m) => [m] + rest
      case None => rest
  }

  /** The messages joined by newlines, with no separator before the first. */
  function JoinLines(ms: seq<string>): string {
    if ms == [] then ""
    else if |ms| == 1 then ms[0]
    else ms[0] + "\n" + JoinLines(ms[1..])
  }

  /** Some record has `localOutdated` set to true. */
  predicate AnyLocalOutdated(os: seq<Outcome>) {
    exists i :: 0 <= i < |os| && IsTrue(os[i].localOutdated)
  }

  /** The warning flag of a list extended by one record. */
  lemma AnyLocalOutdatedSnoc(os: seq<Outcome>, o: Outcome)
    ensures AnyLocalOutdated(os + [o]) <==> AnyLocalOutdated(os) || IsTrue(o.localOutdated)
  {
    if AnyLocalOutdated(os) {
      var j :| 0 <= j < |os| && IsTrue(os[j].localOutdated);
      assert (os + [o])[j] == os[j];
    }
    if AnyLocalOutdated(os + [o]) {
      var j :| 0 <= j < |os| + 1 && IsTrue((os + [o])[j].localOutdated);
      if j < |os| {
        assert os[j] == (os + [o])[j];
      }
    }
    assert (os + [o])[|os|] == o;
  }

  /** The notification for a package.json at `title`, or None when nothing is reported. */
  function Notify(title: string, os: seq<Outcome>): Option<Notification> {
    var ms := Messages(os);
    if ms == [] then None
    else Some(Notification(if AnyLocalOutdated(os) then Warning else Info, title, JoinLines(ms)))
  }

  /** Splitting at newlines: the inverse of JoinLines. */
  function SplitLines(s: string): (lines: seq<string>)
    ensures |lines| >= 1
  {
    if s == [] then [""]
    else
      var rest := SplitLines(s[1..]);
      if s[0] == '\n' then [""] + rest
      else [[s[0]] + rest[0]] + rest[1..]
  }

  /** Appending one message to the joined text, as the loop does. */
  lemma {:induction false} JoinLinesSnoc(ms: seq<string>, m: string)
    ensures JoinLines(ms + [m]) == if ms == [] then m else JoinLines(ms) + "\n" + m
  {
    if |ms| > 1 {
      assert (ms + [m])[1..] == ms[1..] + [m];
      JoinLinesSnoc(ms[1..], m);
      assert JoinLines(ms + [m]) == ms[0] + "\n" + JoinLines(ms[1..] + [m]);
    } else if |ms| == 1 {
      assert (ms + [m])[1..] == [m];
      assert ms + [m] == [ms[0], m];
    }
  }

  /** The joined text is empty exactly when there is no message. */
  lemma {:induction false} JoinLinesEmpty(ms: seq<string>)
    requires forall m :: m in ms ==> |m| > 0
    ensures JoinLines(ms) == "" <==> ms == []
  {
  }

  /** Messages of a list extended by one record. */
  lemma {:induction false} MessagesSnoc(os: seq<Outcome>, o: Outcome)
    ensures Messages(os + [o]) == Messages(os) + (if Message(o).Some? then [Message(o).value] else [])
  {
    if os == [] {
      assert [o][1..] == [];
    } else {
      assert (os + [o])[1..] == os[1..] + [o];
      MessagesSnoc(os[1..], o);
    }
  }

  /**
   * One step of the accumulating loop: the text for a list extended by one
   * record is the old text, extended by the record's message after a newline
   * when the old text is not empty; the warning flag is or-ed with the
   * record's `localOutdated`.
   */
  lemma AppendMessage(os: seq<Outcome>, o: Outcome)
    ensures var text := JoinLines(Messages(os));
            JoinLines(Messages(os + [o])) == match Message(o)
              case None => text
              case Some(m) => if text != "" then text + "\n" + m else m
    ensures AnyLocalOutdated(os + [o]) <==> AnyLocalOutdated(os) || IsTrue(o.localOutdated)
  {
    var before := Messages(os);
    MessagesSnoc(os, o);
    JoinLinesEmpty(before);
    if Message(o).Some? {
      JoinLinesSnoc(before, Message(o).value);
    } else {
      assert before + [] == before;
    }
    AnyLocalOutdatedSnoc(os, o);
  }

  /**
   * The messages are exactly the records' messages: every record with a
   * message contributes it, and every message comes from some record.
   */
  lemma {:induction false} MessagesOfRecords(os: seq<Outcome>)
    ensures forall i :: 0 <= i < |os| && Message(os[i]).Some? ==> Message(os[i]).value in Messages(os)
    ensures forall m :: m in Messages(os) ==> exists i :: 0 <= i < |os| && Message(os[i]) == Some(m)
  {
    if os != [] {
      var rest := os[1..];
      MessagesOfRecords(rest);
      forall i | 1 <= i < |os| && Message(os[i]).Some?
        ensures Message(os[i]).value in Messages(os)
      {
        assert os[i] == rest[i - 1];
      }
      forall m | m in Messages(os)
        ensures exists i :: 0 <= i < |os| && Message(os[i]) == Some(m)
      {
        if Message(os[0]) != Some(m) {
          assert m in Messages(rest);
          var j :| 0 <= j < |rest| && Message(rest[j]) == Some(m);
          assert os[j + 1] == rest[j];
        }
      }
    }
  }

  /** A record with a message puts the list's message list out of empty. */
  lemma {:induction false} MessagesNonEmpty(os: seq<Outcome>, i: int)
    requires 0 <= i < |os| && Message(os[i]).Some?
    ensures Messages(os) != []
  {
    if i > 0 {
      MessagesNonEmpty(os[1..], i - 1);
    }
  }

  /** Lines without a newline are split apart again. */
  lemma {:induction false} SplitLinesPrefix(m: string, t: string)
    requires '\n' !in m
    ensures SplitLines(m + t) == [m + SplitLines(t)[0]] + SplitLines(t)[1..]
  {
    var st := SplitLines(t);
    if m != [] {
      assert (m + t)[0] == m[0] && m[0] in m;
      assert (m + t)[1..] == m[1..] + t;
      SplitLinesPrefix(m[1..], t);
      assert [m[0]] + (m[1..] + st[0]) == m + st[0];
    } else {
      assert m + t == t;
      assert m + st[0] == st[0];
      assert st == [st[0]] + st[1..];
    }
  }

  /** Splitting the joined messages gives the messages back, when none holds a newline. */
  lemma {:induction false} SplitJoin(ms: seq<string>)
    requires ms != []
    requires forall m :: m in ms ==> '\n' !in m
    ensures SplitLines(JoinLines(ms)) == ms
  {
    if |ms| == 1 {
      SplitLinesPrefix(ms[0], "");
      assert ms[0] + "" == ms[0];
    } else {
      var t := JoinLines(ms[1..]);
      assert ms[0] in ms;
      assert forall m :: m in ms[1..] ==> m in ms;
      SplitJoin(ms[1..]);
      assert ms[0] + "\n" + t == ms[0] + ("\n" + t);
      SplitLinesPrefix(ms[0], "\n" + t);
      assert ("\n" + t)[1..] == t;
      var s := SplitLines("\n" + t);
      assert s == [""] + ms[1..];
      assert s[0] == "" && s[1..] == ms[1..];
      assert ms[0] + s[0] == ms[0];
      assert ms == [ms[0]] + ms[1..];
    }
  }

  /**
   * Nothing is shown exactly when no record has a message; when something is
   * shown it is a warning exactly when some record has `localOutdated`.
   */
  lemma NotifySeverity(title: string, os: seq<Outcome>)
    ensures Notify(title, os).None? <==> forall i :: 0 <= i < |os| ==> Message(os[i]).None?
    ensures Notify(title, os).Some? ==> (Notify(title, os).value.severity == Warning <==> AnyLocalOutdated(os))
    ensures AnyLocalOutdated(os) ==> Notify(title, os).Some? && Notify(title, os).value.severity == Warning
  {
    if exists i :: 0 <= i < |os| && Message(os[i]).Some? {
      var i :| 0 <= i < |os| && Message(os[i]).Some?;
      MessagesNonEmpty(os, i);
    }
    if AnyLocalOutdated(os) {
      var i :| 0 <= i < |os| && IsTrue(os[i].localOutdated);
      MessagesNonEmpty(os, i);
    }
    if Messages(os) != [] {
      MessagesWitness(os);
    }
  }

  /** A non-empty message list comes from some record. */
  lemma {:induction false} MessagesWitness(os: seq<Outcome>)
    requires Messages(os) != []
    ensures exists i :: 0 <= i < |os| && Message(os[i]).Some?
  {
    if Message(os[0]).None? {
      MessagesWitness(os[1..]);
      var i :| 0 <= i < |os[1..]| && Message(os[1..][i]).Some?;
      assert Message(os[i + 1]).Some?;
    } else {
      assert Message(os[0]).Some?;
    }
  }

  /** No character of a string is a newline. */
  predicate OneLine(s: string) {
    '\n' !in s
  }

  /** The strings a record's message is built from hold no newline. */
  predicate PrintsOnOneLine(o: Outcome) {
    && OneLine(o.name)
    && (o.localVersion.Some? ==> OneLine(o.localVersion.value))
    && (o.npmVersion.Some? ==> OneLine(o.npmVersion.value))
    && (o.updateVersion.Some? ==> OneLine(o.updateVersion.value))
  }

  lemma MessageOneLine(o: Outcome)
    requires PrintsOnOneLine(o) && Message(o).Some?
    ensures OneLine(Message(o).value)
  {
  }

  lemma {:induction false} MessagesOneLine(os: seq<Outcome>)
    requires forall i :: 0 <= i < |os| ==> PrintsOnOneLine(os[i])
    ensures forall m :: m in Messages(os) ==> OneLine(m)
  {
    if os != [] {
      MessagesOneLine(os[1..]);
      if Message(os[0]).Some? {
        MessageOneLine(os[0]);
      }
    }
  }

  /**
   * The detail text has one line per reported record, in record order, and
   * no leading separator: splitting it at newlines gives back the messages.
   */
  lemma NotifyLines(title: string, os: seq<Outcome>)
    requires forall i :: 0 <= i < |os| ==> PrintsOnOneLine(os[i])
    requires Notify(title, os).Some?
    ensures SplitLines(Notify(title, os).value.detail) == Messages(os)
    ensures Notify(title, os).value.title == title
  {
    MessagesOneLine(os);
    SplitJoin(Messages(os));
  }
}
