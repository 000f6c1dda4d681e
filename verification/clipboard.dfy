/** The sender's clipboard history: a bounded move-to-front list against the complete log of
    texts sent (apps/sender/src/store/clipboardStore.ts). */
module Clipboard {
  import opened Common
  import U = Utf8

  const MAX_HISTORY := 20
  const MAX_ITEM_BYTES := 65536

  datatype Entry = Entry(text: U.Text, at: string)

  datatype Event = RecordSent(text: U.Text, at: string) | SetRemote(remote: Option<U.Text>) | Clear

  datatype Store = Store(history: seq<Entry>, remote: Option<U.Text>)

  predicate Fits(text: U.Text) { |U.Encoded(text)| <= MAX_ITEM_BYTES }

  /** `history.filter((e) => e.text !== text)`. */
  function Without(s: seq<Entry>, text: U.Text): seq<Entry> {
    if s == [] then [] else (if s[0].text == text then [] else [s[0]]) + Without(s[1..], text)
  }

  function Take(s: seq<Entry>): seq<Entry> { if |s| <= MAX_HISTORY then s else s[..MAX_HISTORY] }

  function Step(s: Store, e: Event): Store {
    match e
    case RecordSent(text, at) =>
      if !Fits(text) then s else s.(history := Take([Entry(text, at)] + Without(s.history, text)))
    case SetRemote(remote) => s.(remote := remote)
    case Clear => Store([], None)
  }

  function Run(es: seq<Event>): Store {
    if es == [] then Store([], None) else Step(Run(es[..|es| - 1]), es[|es| - 1])
  }

  // ---------------------------------------------------------------- the log

  /** Every text accepted since the last clear, oldest first. */
  function Accepted(es: seq<Event>): seq<Entry> {
    if es == [] || es[|es| - 1].Clear? then []
    else
      var e := es[|es| - 1];
      Accepted(es[..|es| - 1]) + if e.RecordSent? && Fits(e.text) then [Entry(e.text, e.at)] else []
  }

  /** Reading the log backwards and skipping every text already met. */
  function Newest(log: seq<Entry>, met: set<U.Text>): seq<Entry> {
    if log == [] then []
    else
      var before, e := log[..|log| - 1], log[|log| - 1];
      if e.text in met then Newest(before, met) else [e] + Newest(before, met + {e.text})
  }

  predicate Distinct(s: seq<Entry>) { forall j, k :: 0 <= j < k < |s| ==> s[j].text != s[k].text }

  lemma {:induction false} NewestAreDistinct(log: seq<Entry>, met: set<U.Text>)
    ensures Distinct(Newest(log, met))
    ensures forall e :: e in Newest(log, met) ==> e in log && e.text !in met
  {
    if log != [] {
      var before, e := log[..|log| - 1], log[|log| - 1];
      NewestAreDistinct(before, met);
      NewestAreDistinct(before, met + {e.text});
      var rest := Newest(before, met + {e.text});
      assert forall k :: 0 <= k < |rest| ==> rest[k] in rest;
    }
  }

  lemma {:induction false} SkipIsFilter(log: seq<Entry>, met: set<U.Text>, text: U.Text)
    ensures Newest(log, met + {text}) == Without(Newest(log, met), text)
  {
    if log != [] {
      var before, e := log[..|log| - 1], log[|log| - 1];
      if e.text in met {
        SkipIsFilter(before, met, text);
      } else {
        SkipIsFilter(before, met + {e.text}, text);
        assert Newest(log, met)[1..] == Newest(before, met + {e.text});
        if e.text == text {
          assert met + {text} == met + {e.text} && met + {e.text} + {text} == met + {e.text};
        } else {
          assert met + {text} + {e.text} == met + {e.text} + {text};
        }
      }
    }
  }

  lemma WithoutNothing(text: U.Text)
    ensures Without([], text) == []
  {
  }

  lemma WithoutPush(e: Entry, rest: seq<Entry>, text: U.Text)
    ensures Without([e] + rest, text) == (if e.text == text then [] else [e]) + Without(rest, text)
  {
    assert ([e] + rest)[1..] == rest;
  }

  lemma {:induction false} WithoutConcat(a: seq<Entry>, b: seq<Entry>, text: U.Text)
    ensures Without(a + b, text) == Without(a, text) + Without(b, text)
  {
    hide Without;
    if a == [] {
      assert a + b == b;
      assert Without([], text) == [] by { WithoutNothing(text); }
    } else {
      var rest := a[1..];
      WithoutConcat(rest, b, text);
      WithoutPush(a[0], rest, text);
      WithoutPush(a[0], rest + b, text);
      assert a == [a[0]] + rest && a + b == [a[0]] + (rest + b);
    }
  }

  lemma {:induction false} RemovesAtMostOne(s: seq<Entry>, text: U.Text)
    requires Distinct(s)
    ensures |s| - 1 <= |Without(s, text)| <= |s|
    ensures (forall e :: e in s ==> e.text != text) ==> |Without(s, text)| == |s|
  {
    if s != [] { RemovesAtMostOne(s[1..], text); }
  }

  /** Truncating before a text is moved to the front loses nothing that truncating after keeps. */
  lemma TruncateEarly(s: seq<Entry>, e: Entry)
    requires Distinct(s)
    ensures Take([e] + Without(Take(s), e.text)) == Take([e] + Without(s, e.text))
  {
    if |s| > MAX_HISTORY {
      var kept, cut := s[..MAX_HISTORY], s[MAX_HISTORY..];
      assert s == kept + cut;
      WithoutConcat(kept, cut, e.text);
      RemovesAtMostOne(kept, e.text);
    }
  }

  /** After any sequence of events, the stored history is the first 20 distinct texts of the
      reversed log of everything accepted since the last clear. */
  lemma {:induction false} HistoryIsNewest(es: seq<Event>)
    ensures Run(es).history == Take(Newest(Accepted(es), {}))
  {
    if es != [] {
      var before, e := es[..|es| - 1], es[|es| - 1];
      HistoryIsNewest(before);
      if e.RecordSent? && Fits(e.text) {
        var log, entry := Accepted(before), Entry(e.text, e.at);
        assert (log + [entry])[..|log|] == log;
        SkipIsFilter(log, {}, e.text);
        NewestAreDistinct(log, {});
        TruncateEarly(Newest(log, {}), entry);
        assert Newest(log + [entry], {}) == [entry] + Newest(log, {} + {e.text});
      } else if !e.Clear? {
        assert Accepted(es) == Accepted(before);
      }
    }
  }

  /** What was last pulled or set since the last clear. */
  function LastRemote(es: seq<Event>): Option<U.Text> {
    if es == [] || es[|es| - 1].Clear? then None
    else if es[|es| - 1].SetRemote? then es[|es| - 1].remote
    else LastRemote(es[..|es| - 1])
  }

  /** The remote text is the last one set since the last clear; sending does not touch it. */
  lemma {:induction false} RemoteIsLatest(es: seq<Event>)
    ensures Run(es).remote == LastRemote(es)
  {
    if es != [] { RemoteIsLatest(es[..|es| - 1]); }
  }

  // ---------------------------------------------------------------- which texts are remembered

  predicate Occurs(log: seq<Entry>, text: U.Text) { exists e :: e in log && e.text == text }

  /** The texts accepted after the last acceptance of `text`. */
  function After(log: seq<Entry>, text: U.Text): set<U.Text> {
    if log == [] || log[|log| - 1].text == text then {}
    else After(log[..|log| - 1], text) + {log[|log| - 1].text}
  }

  /** A text stands in the deduplicated log behind exactly the other texts accepted after it. */
  lemma {:induction false} PositionOf(log: seq<Entry>, met: set<U.Text>, text: U.Text)
    requires Occurs(log, text) && text !in met
    ensures var i := |After(log, text) - met|;
            i < |Newest(log, met)| && Newest(log, met)[i].text == text
  {
    var before, e := log[..|log| - 1], log[|log| - 1];
    assert log == before + [e];
    if e.text == text {
      assert After(log, text) - met == {};
    } else if e.text in met {
      PositionOf(before, met, text);
      assert After(log, text) - met == After(before, text) - met;
    } else {
      PositionOf(before, met + {e.text}, text);
      assert After(log, text) - met == (After(before, text) - (met + {e.text})) + {e.text};
    }
  }

  /** The event records a text that takes at most 64 KiB, and no clear comes after it. */
  ghost predicate Lasting(es: seq<Event>, k: nat, text: U.Text)
    requires k < |es|
  {
    && es[k].RecordSent? && es[k].text == text && |U.Encoded(text)| <= 65536
    && forall j :: k < j < |es| ==> !es[j].Clear?
  }

  /** A text counts as accepted since the last clear if and only if such an event says so. */
  lemma {:induction false} AcceptedExactly(es: seq<Event>, text: U.Text)
    ensures Occurs(Accepted(es), text) <==> exists k :: 0 <= k < |es| && Lasting(es, k, text)
  {
    if es != [] {
      var n := |es| - 1;
      var before, e := es[..n], es[n];
      AcceptedExactly(before, text);
      assert e.RecordSent? && e.text == text && Fits(text) <==> Lasting(es, n, text);
      if e.Clear? {
        forall k | 0 <= k < |es| ensures !Lasting(es, k, text) {
          assert k < n ==> es[n].Clear?;
        }
      } else {
        forall k | 0 <= k < n ensures Lasting(es, k, text) <==> Lasting(before, k, text) {
        }
        if e.RecordSent? && Fits(e.text) { OccursPush(Accepted(before), Entry(e.text, e.at), text); }
        else { assert Accepted(es) == Accepted(before); }
      }
    }
  }

  lemma OccursPush(log: seq<Entry>, x: Entry, text: U.Text)
    ensures Occurs(log + [x], text) <==> Occurs(log, text) || x.text == text
  {
    if Occurs(log, text) {
      var e :| e in log && e.text == text;
      assert e in log + [x];
    }
    if x.text == text { assert x in log + [x]; }
  }

  /** A text is remembered exactly when it was accepted since the last clear and fewer than 20
      other texts were accepted after it. */
  lemma RememberedExactly(es: seq<Event>, text: U.Text)
    ensures Occurs(Run(es).history, text) <==>
            Occurs(Accepted(es), text) && |After(Accepted(es), text)| < MAX_HISTORY
  {
    var log := Accepted(es);
    var all := Newest(log, {});
    HistoryIsNewest(es);
    NewestAreDistinct(log, {});
    if Occurs(log, text) {
      PositionOf(log, {}, text);
      var i := |After(log, text)|;
      assert After(log, text) - {} == After(log, text);
      assert all[i].text == text;
      if i < MAX_HISTORY {
        assert Take(all)[i] in Take(all);
      } else {
        forall k | 0 <= k < |Take(all)| ensures Take(all)[k].text != text {
          assert Take(all)[k] == all[k];
        }
      }
    }
  }

  // ---------------------------------------------------------------- the object

  class ClipboardStore {
    var history: seq<Entry>
    var remote: Option<U.Text>

    function View(): Store
      reads this
    {
      Store(history, remote)
    }

    constructor ()
      ensures View() == Run([])
    {
      history, remote := [], None;
    }

    method Record(text: U.Text, at: string)
      modifies this`history
      ensures View() == Step(old(View()), RecordSent(text, at))
    {
      if |U.Encoded(text)| > MAX_ITEM_BYTES { return; }
      history := [Entry(text, at)] + Without(history, text);
      if |history| > MAX_HISTORY { history := history[..MAX_HISTORY]; }
    }

    method Remember(text: Option<U.Text>)
      modifies this`remote
      ensures View() == Step(old(View()), SetRemote(text))
    {
      remote := text;
    }

    method Forget()
      modifies this
      ensures View() == Step(old(View()), Clear)
    {
      history, remote := [], None;
    }
  }
}
